/** `TreeAdapter`: the list of nodes a tree view shows, in pre-order, going
    below a node only when it is expanded. Expanding or collapsing a shown
    node edits the list in place instead of rebuilding it; the lemmas here
    show that the edit gives the list a rebuild would. */
module Display {
  import opened Wrappers
  import opened Forest
  import opened MemberNetwork
  import opened TreeNodes

  /** The nodes a list holds. */
  function Elems(s: seq<Node>): (r: set<Node>)
    ensures forall x :: x in r <==> x in s
  {
    set x | x in s
  }

  /** `d` without every entry that is in `s` (`removeAll`). */
  function Without(d: seq<Node>, s: set<Node>): (r: seq<Node>)
    ensures |r| <= |d|
  {
    if d == [] then []
    else Without(d[..|d| - 1], s) + (if d[|d| - 1] in s then [] else [d[|d| - 1]])
  }

  /** What is left is what `d` holds and `s` does not. */
  lemma {:induction false} WithoutMembers(d: seq<Node>, s: set<Node>)
    ensures forall x :: x in Without(d, s) <==> x in d && x !in s
  {
    if d != [] {
      var init := d[..|d| - 1];
      WithoutMembers(init, s);
      assert d == init + [d[|d| - 1]];
    }
  }

  lemma {:induction false} WithoutConcat(a: seq<Node>, b: seq<Node>, s: set<Node>)
    ensures Without(a + b, s) == Without(a, s) + Without(b, s)
    decreases |b|
  {
    if b != [] {
      var init := b[..|b| - 1];
      assert (a + b)[..|a + b| - 1] == a + init;
      WithoutConcat(a, init, s);
    } else {
      assert a + b == a;
    }
  }

  /** Removing twice is removing both sets. */
  lemma {:induction false} WithoutTwice(d: seq<Node>, s: set<Node>, s2: set<Node>)
    ensures Without(Without(d, s), s2) == Without(d, s + s2)
  {
    if d != [] {
      var init, x := d[..|d| - 1], d[|d| - 1];
      WithoutTwice(init, s, s2);
      WithoutConcat(Without(init, s), if x in s then [] else [x], s2);
    }
  }

  /** A list that shares nothing with `s` is left as it is. */
  lemma {:induction false} WithoutNothing(d: seq<Node>, s: set<Node>)
    requires forall x :: x in d ==> x !in s
    ensures Without(d, s) == d
  {
    if d != [] {
      WithoutNothing(d[..|d| - 1], s);
    }
  }

  /** A list all of whose entries are in `s` is removed entirely. */
  lemma {:induction false} WithoutEverything(d: seq<Node>, s: set<Node>)
    requires forall x :: x in d ==> x in s
    ensures Without(d, s) == []
  {
    if d != [] {
      WithoutEverything(d[..|d| - 1], s);
    }
  }

  /** The three parts of a list without repeats share no entry. */
  lemma Disjoint3(a: seq<Node>, x: seq<Node>, b: seq<Node>)
    requires NoDup(a + x + b)
    ensures forall y :: y in a ==> y !in x
    ensures forall y :: y in b ==> y !in x
  {
    var s := a + x + b;
    forall i, j | 0 <= i < |a| && 0 <= j < |x|
      ensures a[i] != x[j]
    {
      assert s[i] == a[i] && s[|a| + j] == x[j];
    }
    forall i, j | 0 <= i < |b| && 0 <= j < |x|
      ensures b[i] != x[j]
    {
      assert s[|a| + |x| + i] == b[i] && s[|a| + j] == x[j];
    }
  }

  /** Cutting `x` out of the middle of a list without repeats. */
  lemma CutOut(a: seq<Node>, x: seq<Node>, b: seq<Node>)
    requires NoDup(a + x + b)
    ensures Without(a + x + b, Elems(x)) == a + b
  {
    Disjoint3(a, x, b);
    CutOutApart(a, x, b);
  }

  lemma CutOutApart(a: seq<Node>, x: seq<Node>, b: seq<Node>)
    requires forall y :: y in a ==> y !in x
    requires forall y :: y in b ==> y !in x
    ensures Without(a + x + b, Elems(x)) == a + b
  {
    var e := Elems(x);
    WithoutNothing(a, e);
    WithoutNothing(b, e);
    WithoutEverything(x, e);
    var ax := a + x;
    WithoutConcat(a, x, e);
    assert Without(ax, e) == a;
    WithoutConcat(ax, b, e);
  }

  /** The parts of a list without repeats have none. */
  lemma NoDupParts(a: seq<Node>, n: Node, b: seq<Node>)
    requires NoDup(a + [n] + b)
    ensures NoDup(a) && NoDup(b) && n !in a && n !in b
    ensures forall y :: y in a ==> y !in b
  {
    var s := a + [n] + b;
    assert forall k :: 0 <= k < |a| ==> s[k] == a[k];
    assert forall k :: 0 <= k < |b| ==> s[|a| + 1 + k] == b[k];
    assert s[|a|] == n;
  }

  /** `Flatten` reads the flag of the nodes it lists and of no other. */
  lemma {:induction false} FlattenSame(ch: seq<seq<Node>>, ex: seq<bool>, ex2: seq<bool>, ns: seq<Node>, lo: int)
    requires Downward(ch) && |ex| == |ch| && |ex2| == |ch|
    requires -1 <= lo && forall k :: 0 <= k < |ns| ==> lo < ns[k] < |ch|
    requires forall m :: m in Flatten(ch, ex, ns, lo) ==> ex2[m] == ex[m]
    ensures Flatten(ch, ex2, ns, lo) == Flatten(ch, ex, ns, lo)
    decreases |ch| - lo, |ns|
  {
    if ns != [] {
      var n, init := ns[|ns| - 1], ns[..|ns| - 1];
      var a, b := Flatten(ch, ex, init, lo), Below(ch, ex, n);
      assert Flatten(ch, ex, ns, lo) == a + [n] + b;
      FlattenSame(ch, ex, ex2, init, lo);
      if ch[n] != [] && ex[n] {
        FlattenSame(ch, ex, ex2, ch[n], n);
      }
    }
  }

  /** Flattening `ns` with `p` collapsed gives `pre`, `p`, `post`; with `p`
      expanded, what lies under `p` comes between `p` and `post`. */
  ghost predicate Around(ch: seq<seq<Node>>, ex: seq<bool>, ns: seq<Node>, lo: int, p: Node, pre: seq<Node>, post: seq<Node>)
    requires Downward(ch) && |ex| == |ch| && p < |ch|
    requires -1 <= lo && forall k :: 0 <= k < |ns| ==> lo < ns[k] < |ch|
  {
    && Flatten(ch, ex[p := false], ns, lo) == pre + [p] + post
    && Flatten(ch, ex[p := true], ns, lo) == pre + [p] + Flatten(ch, ex, ch[p], p) + post
  }

  /** Where `p` is listed, the listing with `p` collapsed and the listing
      with `p` expanded differ only by what lies under `p`, right after it. */
  lemma {:induction false} FlattenAround(ch: seq<seq<Node>>, ex: seq<bool>, ns: seq<Node>, lo: int, p: Node)
    returns (pre: seq<Node>, post: seq<Node>)
    requires Downward(ch) && |ex| == |ch|
    requires -1 <= lo && forall k :: 0 <= k < |ns| ==> lo < ns[k] < |ch|
    requires p in Flatten(ch, ex, ns, lo) && NoDup(Flatten(ch, ex, ns, lo))
    ensures p < |ch| && Around(ch, ex, ns, lo, p, pre, post)
    decreases |ch| - lo, |ns|
  {
    var n, init := ns[|ns| - 1], ns[..|ns| - 1];
    var a, b := Flatten(ch, ex, init, lo), Below(ch, ex, n);
    assert Flatten(ch, ex, ns, lo) == a + [n] + b;
    NoDupParts(a, n, b);
    if p in a {
      var post1;
      pre, post1 := FlattenAround(ch, ex, init, lo, p);
      AroundBefore(ch, ex, ns, lo, p, pre, post1);
      post := post1 + ([n] + b);
    } else if p == n {
      AroundAt(ch, ex, ns, lo, p);
      pre, post := a, [];
    } else {
      assert ch[n] != [] && ex[n] && b == Flatten(ch, ex, ch[n], n);
      var pre1;
      pre1, post := FlattenAround(ch, ex, ch[n], n, p);
      AroundUnder(ch, ex, ns, lo, p, pre1, post);
      pre := a + [n] + pre1;
    }
  }

  /** `p` is listed before the last of `ns`. */
  lemma AroundBefore(ch: seq<seq<Node>>, ex: seq<bool>, ns: seq<Node>, lo: int, p: Node, pre: seq<Node>, post: seq<Node>)
    requires Downward(ch) && |ex| == |ch| && p < |ch|
    requires -1 <= lo && forall k :: 0 <= k < |ns| ==> lo < ns[k] < |ch|
    requires ns != [] && ns[|ns| - 1] != p && p !in Below(ch, ex, ns[|ns| - 1])
    requires Around(ch, ex, ns[..|ns| - 1], lo, p, pre, post)
    ensures Around(ch, ex, ns, lo, p, pre, post + ([ns[|ns| - 1]] + Below(ch, ex, ns[|ns| - 1])))
  {
    var n, init := ns[|ns| - 1], ns[..|ns| - 1];
    var exf, ext := ex[p := false], ex[p := true];
    BelowSameExcept(ch, ex, n, p, false);
    BelowSameExcept(ch, ex, n, p, true);
    FlattenLast(ch, exf, ns, lo);
    FlattenLast(ch, ext, ns, lo);
    var tail := [n] + Below(ch, ex, n);
    ConcatAssoc(pre + [p], post, tail);
    ConcatAssoc(pre + [p] + Flatten(ch, ex, ch[p], p), post, tail);
  }

  /** `Flatten` unfolded once. */
  lemma FlattenLast(ch: seq<seq<Node>>, ex: seq<bool>, ns: seq<Node>, lo: int)
    requires Downward(ch) && |ex| == |ch|
    requires -1 <= lo && forall k :: 0 <= k < |ns| ==> lo < ns[k] < |ch|
    requires ns != []
    ensures Flatten(ch, ex, ns, lo) == Flatten(ch, ex, ns[..|ns| - 1], lo) + ([ns[|ns| - 1]] + Below(ch, ex, ns[|ns| - 1]))
  {
  }

  /** Setting the flag of a node that is neither `n` nor listed under it
      does not change what is listed under `n`. */
  lemma BelowSameExcept(ch: seq<seq<Node>>, ex: seq<bool>, n: Node, p: Node, v: bool)
    requires Downward(ch) && |ex| == |ch| && n < |ch| && p < |ch|
    requires p != n && p !in Below(ch, ex, n)
    ensures Below(ch, ex[p := v], n) == Below(ch, ex, n)
  {
    if ch[n] != [] && ex[n] {
      FlattenSame(ch, ex, ex[p := v], ch[n], n);
    }
  }

  /** `p` is the last of `ns`. */
  lemma AroundAt(ch: seq<seq<Node>>, ex: seq<bool>, ns: seq<Node>, lo: int, p: Node)
    requires Downward(ch) && |ex| == |ch|
    requires -1 <= lo && forall k :: 0 <= k < |ns| ==> lo < ns[k] < |ch|
    requires ns != [] && ns[|ns| - 1] == p && p !in Flatten(ch, ex, ns[..|ns| - 1], lo)
    ensures Around(ch, ex, ns, lo, p, Flatten(ch, ex, ns[..|ns| - 1], lo), [])
  {
    var init := ns[..|ns| - 1];
    var exf, ext := ex[p := false], ex[p := true];
    FlattenSame(ch, ex, exf, init, lo);
    FlattenSame(ch, ex, ext, init, lo);
    FlattenSame(ch, ex, ext, ch[p], p);
  }

  /** `p` is listed under the last of `ns`. */
  lemma AroundUnder(ch: seq<seq<Node>>, ex: seq<bool>, ns: seq<Node>, lo: int, p: Node, pre: seq<Node>, post: seq<Node>)
    requires Downward(ch) && |ex| == |ch| && p < |ch|
    requires -1 <= lo && forall k :: 0 <= k < |ns| ==> lo < ns[k] < |ch|
    requires ns != [] && ns[|ns| - 1] != p && p !in Flatten(ch, ex, ns[..|ns| - 1], lo)
    requires ch[ns[|ns| - 1]] != [] && ex[ns[|ns| - 1]]
    requires Around(ch, ex, ch[ns[|ns| - 1]], ns[|ns| - 1], p, pre, post)
    ensures Around(ch, ex, ns, lo, p, Flatten(ch, ex, ns[..|ns| - 1], lo) + [ns[|ns| - 1]] + pre, post)
  {
    var init := ns[..|ns| - 1];
    var exf, ext := ex[p := false], ex[p := true];
    FlattenSame(ch, ex, exf, init, lo);
    FlattenSame(ch, ex, ext, init, lo);
  }

  /** Expanding the collapsed node at position `k` of the listing inserts
      what lies under it right after it. */
  lemma ExpandInPlace(parent: seq<Option<Node>>, ch: seq<seq<Node>>, ex: seq<bool>, roots: seq<Node>, k: int, p: Node)
    requires WellFormed(parent, ch) && |ex| == |ch| && Roots(parent, roots)
    requires 0 <= k < |Flatten(ch, ex, roots, -1)| && Flatten(ch, ex, roots, -1)[k] == p
    requires p < |ch| && !ex[p]
    ensures var d := Flatten(ch, ex, roots, -1);
      Flatten(ch, ex[p := true], roots, -1) == d[..k + 1] + Flatten(ch, ex, ch[p], p) + d[k + 1..]
  {
    var d := Flatten(ch, ex, roots, -1);
    FlattenNoDup(parent, ch, ex, roots, -1, None);
    var pre, post := FlattenAround(ch, ex, roots, -1, p);
    assert ex[p := false] == ex;
    assert d == pre + [p] + post;
    assert d[|pre|] == p;
    assert k == |pre|;
    assert d[..k + 1] == pre + [p] && d[k + 1..] == post;
  }

  /** Collapsing the expanded node `p` of the listing removes what lay
      under it, whatever then happens to the flags of those nodes. */
  lemma CollapseInPlace(parent: seq<Option<Node>>, ch: seq<seq<Node>>, ex: seq<bool>, ex2: seq<bool>, roots: seq<Node>, p: Node)
    requires WellFormed(parent, ch) && |ex| == |ch| && |ex2| == |ch| && Roots(parent, roots)
    requires p in Flatten(ch, ex, roots, -1) && p < |ch| && ex[p]
    requires forall j :: 0 <= j < |ch| && j !in Flatten(ch, ex, ch[p], p) ==> ex2[j] == ex[p := false][j]
    ensures Flatten(ch, ex2, roots, -1) == Without(Flatten(ch, ex, roots, -1), Elems(Flatten(ch, ex, ch[p], p)))
  {
    var d, x := Flatten(ch, ex, roots, -1), Flatten(ch, ex, ch[p], p);
    FlattenNoDup(parent, ch, ex, roots, -1, None);
    var pre, post := FlattenAround(ch, ex, roots, -1, p);
    assert ex[p := true] == ex;
    assert d == (pre + [p]) + x + post;
    CutOut(pre + [p], x, post);
    Disjoint3(pre + [p], x, post);
    FlattenSame(ch, ex[p := false], ex2, roots, -1);
  }

  /** `d` with `x` inserted at position `i` (`add(i, x)`). */
  function InsertAt(d: seq<Node>, i: nat, x: Node): (r: seq<Node>)
    requires i <= |d|
    ensures |r| == |d| + 1 && r[i] == x
  {
    d[..i] + [x] + d[i..]
  }

  /** The adapter's own state: the shown nodes and whether collapsing a
      node also collapses its shown descendants. */
  class TreeAdapter {
    var displayNodes: seq<Node>
    var toCollapseChild: bool

    /** The adapter over the trees `nodes`: shows their listing. */
    constructor (net: Network, nodes: seq<Node>)
      requires net.Valid() && forall k :: 0 <= k < |nodes| ==> nodes[k] < |net.parent|
      ensures displayNodes == Flatten(net.children, net.isExpand, nodes, -1) && !toCollapseChild
    {
      displayNodes := [];
      toCollapseChild := false;
      new;
      FindDisplayNodes(net, nodes, -1);
    }

    /** `findDisplayNodes`: appends each of `nodes`, each followed by the
        nodes under it when it is expanded and not a leaf. */
    method FindDisplayNodes(net: Network, nodes: seq<Node>, lo: int)
      requires net.Valid() && -1 <= lo && forall k :: 0 <= k < |nodes| ==> lo < nodes[k] < |net.parent|
      modifies this`displayNodes
      ensures displayNodes == old(displayNodes) + Flatten(net.children, net.isExpand, nodes, lo)
      decreases |net.parent| - lo
    {
      ghost var ch, ex, d0 := net.children, net.isExpand, displayNodes;
      ghost var done: seq<Node> := [];
      var k := 0;
      while k < |nodes|
        invariant 0 <= k <= |nodes|
        invariant done == Flatten(ch, ex, nodes[..k], lo)
        invariant displayNodes == d0 + done
      {
        var node := nodes[k];
        displayNodes := displayNodes + [node];
        if net.children[node] != [] && net.isExpand[node] {
          FindDisplayNodes(net, net.children[node], node);
        }
        FlattenSnoc(ch, ex, nodes, lo, k);
        ghost var below := Below(ch, ex, node);
        ConcatAssoc(d0 + done, [node], below);
        ConcatAssoc(d0, done + [node], below);
        ConcatAssoc(d0, done, [node]);
        done := done + [node] + below;
        k := k + 1;
      }
      assert nodes[..k] == nodes;
    }

    /** `refresh`: the listing of `treeNodes`, built afresh. */
    method Refresh(net: Network, treeNodes: seq<Node>)
      requires net.Valid() && forall k :: 0 <= k < |treeNodes| ==> treeNodes[k] < |net.parent|
      modifies this`displayNodes
      ensures displayNodes == Flatten(net.children, net.isExpand, treeNodes, -1)
    {
      displayNodes := [];
      FindDisplayNodes(net, treeNodes, -1);
    }

    /** `toggleItemView`: a click on the row at `position`. A click that
        comes too soon after the last one, that the listener consumes, or
        that lands on a leaf or a locked node changes nothing; otherwise the
        node is expanded (its listing is inserted after its row) or
        collapsed (its listing is removed). Either way the list stays the
        listing of the roots under the new flags. */
    method ToggleItemView(net: Network, position: nat, tooSoon: bool, consumed: bool, locked: bool, ghost roots: seq<Node>)
      requires net.Valid() && Roots(net.parent, roots)
      requires displayNodes == Flatten(net.children, net.isExpand, roots, -1) && position < |displayNodes|
      modifies this`displayNodes, net`isExpand
      ensures net.Valid()
      ensures displayNodes == Flatten(net.children, net.isExpand, roots, -1)
      ensures var n := old(displayNodes[position]);
        if tooSoon || consumed || net.children[n] == [] || locked then
          displayNodes == old(displayNodes) && net.isExpand == old(net.isExpand)
        else if !old(net.isExpand[n]) then
          net.isExpand == old(net.isExpand)[n := true] &&
          displayNodes == old(displayNodes[..position + 1]) + Flatten(net.children, old(net.isExpand), net.children[n], n)
            + old(displayNodes[position + 1..])
        else
          !net.isExpand[n] &&
          (forall j :: 0 <= j < |net.isExpand| && j != n ==>
            net.isExpand[j] == (old(net.isExpand[j]) && !(toCollapseChild && j in Flatten(net.children, old(net.isExpand), net.children[n], n)))) &&
          displayNodes == Without(old(displayNodes), Elems(Flatten(net.children, old(net.isExpand), net.children[n], n)))
    {
      var selected := displayNodes[position];
      if tooSoon || consumed || net.children[selected] == [] || locked {
        return;
      }
      ghost var ch, ex, d := net.children, net.isExpand, displayNodes;
      var k := IndexOf(displayNodes, selected);
      FlattenNoDup(net.parent, ch, ex, roots, -1, None);
      assert k == position;
      if !net.isExpand[selected] {
        var _ := AddChildNodes(net, selected, k + 1);
        ExpandInPlace(net.parent, ch, ex, roots, k, selected);
        assert net.children == ch && net.isExpand == ex[selected := true];
      } else {
        var _ := RemoveChildNodes(net, selected, true);
        CollapseInPlace(net.parent, ch, ex, net.isExpand, roots, selected);
      }
    }

    /** `addChildNodes`: inserts, from position `startIndex` on, the children
        of `p`, each followed by what is shown under it when it is
        expanded; answers how many were inserted and leaves `p` expanded. */
    method AddChildNodes(net: Network, p: Node, startIndex: nat) returns (count: nat)
      requires net.Valid() && p < |net.parent| && startIndex <= |displayNodes|
      modifies this`displayNodes, net`isExpand
      ensures net.Valid() && net.isExpand == old(net.isExpand)[p := true]
      ensures displayNodes ==
        old(displayNodes[..startIndex]) + Flatten(net.children, old(net.isExpand), net.children[p], p) + old(displayNodes[startIndex..])
      ensures count == |Flatten(net.children, old(net.isExpand), net.children[p], p)|
      decreases |net.parent| - p, 1
    {
      ghost var ch, ex0, d0 := net.children, net.isExpand, displayNodes;
      ghost var front, back := d0[..startIndex], d0[startIndex..];
      ghost var done: seq<Node> := [];
      var cs := net.children[p];
      count := 0;
      var k := 0;
      while k < |cs|
        invariant 0 <= k <= |cs| && net.children == ch && net.isExpand == ex0
        invariant Adding(net, p, k, startIndex, count, front, done, back)
      {
        count, done := AddChildAt(net, p, k, startIndex, count, front, done, back);
        k := k + 1;
      }
      assert cs[..k] == cs;
      assert done == Flatten(ch, ex0, ch[p], p);
      if !net.isExpand[p] {
        var _ := Toggle(net, p);
      } else {
        assert ex0 == ex0[p := true];
      }
    }

    /** What `addChildNodes` keeps after its first `k` turns: the nodes
        shown from the first `k` children of `p` on sit between `front` and
        `back`, and `count` says how many there are. */
    ghost predicate Adding(net: Network, p: Node, k: nat, startIndex: nat, count: nat,
                           front: seq<Node>, done: seq<Node>, back: seq<Node>)
      reads this, net
    {
      net.Valid() && p < |net.parent| && k <= |net.children[p]|
      && done == Flatten(net.children, net.isExpand, net.children[p][..k], p) && count == |done|
      && displayNodes == front + done + back && startIndex == |front|
    }

    /** One turn of `addChildNodes`: the `k`-th child of `p` goes in after
        what the turns before it inserted. */
    method AddChildAt(net: Network, p: Node, k: nat, startIndex: nat, count: nat,
                      ghost front: seq<Node>, ghost done: seq<Node>, ghost back: seq<Node>)
      returns (count': nat, ghost done': seq<Node>)
      requires Adding(net, p, k, startIndex, count, front, done, back) && k < |net.children[p]|
      modifies this`displayNodes, net`isExpand
      ensures net.children == old(net.children) && net.isExpand == old(net.isExpand)
      ensures Adding(net, p, k + 1, startIndex, count', front, done', back)
      decreases |net.parent| - p, 0
    {
      ghost var ch, ex0 := net.children, net.isExpand;
      var t := net.children[p][k];
      ghost var run := [t] + Below(ch, ex0, t);
      InsertInMiddle2(front, done, back, run);
      var added := InsertSubtree(net, t, startIndex + count);
      count' := count + added;
      FlattenSnoc(ch, ex0, ch[p], p, k);
      ConcatAssoc(done, [t], Below(ch, ex0, t));
      done' := done + run;
    }

    /** One turn of `addChildNodes`: `t` goes in at position `at`, followed,
        when it is expanded, by what is shown under it. */
    method InsertSubtree(net: Network, t: Node, at: nat) returns (count: nat)
      requires net.Valid() && t < |net.parent| && at <= |displayNodes|
      modifies this`displayNodes, net`isExpand
      ensures net.Valid() && net.isExpand == old(net.isExpand)
      ensures displayNodes == old(displayNodes[..at]) + ([t] + Below(net.children, net.isExpand, t)) + old(displayNodes[at..])
      ensures count == 1 + |Below(net.children, net.isExpand, t)|
      decreases |net.parent| - t, 2
    {
      ghost var d0 := displayNodes;
      displayNodes := InsertAt(displayNodes, at, t);
      count := 1;
      if net.isExpand[t] {
        assert displayNodes[..at + 1] == d0[..at] + [t] && displayNodes[at + 1..] == d0[at..];
        var added := AddChildNodes(net, t, at + 1);
        count := count + added;
      }
    }

    /** `removeChildNodes`: takes the children of `p` and every node shown
        under an expanded child out of the list, answers how many that was,
        and toggles `p` when asked to. A leaf is left alone. With
        `toCollapseChild` set, every expanded node among them is collapsed
        on the way. */
    method RemoveChildNodes(net: Network, p: Node, shouldToggle: bool) returns (count: nat)
      requires net.Valid() && p < |net.parent|
      modifies this`displayNodes, net`isExpand
      ensures net.Valid()
      ensures displayNodes == Without(old(displayNodes), Elems(Flatten(net.children, old(net.isExpand), net.children[p], p)))
      ensures count == |Flatten(net.children, old(net.isExpand), net.children[p], p)|
      ensures net.isExpand[p] == if shouldToggle && net.children[p] != [] then !old(net.isExpand[p]) else old(net.isExpand[p])
      ensures forall j :: 0 <= j < |net.isExpand| && j != p ==>
        net.isExpand[j] == (old(net.isExpand[j]) && !(toCollapseChild && j in Flatten(net.children, old(net.isExpand), net.children[p], p)))
      decreases |net.parent| - p, 0
    {
      if net.children[p] == [] {
        ghost var e := Flatten(net.children, net.isExpand, net.children[p], p);
        assert e == [] && Elems(e) == {};
        WithoutNothing(displayNodes, {});
        return 0;
      }
      ghost var ex0, d0 := net.isExpand, displayNodes;
      var cs := net.children[p];
      displayNodes := Without(displayNodes, Elems(cs));
      var more := RemoveEach(net, p, d0);
      count := |cs| + more;
      ghost var x := Flatten(net.children, ex0, cs, p);
      ChildrenListed(net.children, ex0, cs, p);
      assert Elems(cs) + Elems(x) == Elems(x);
      assert p !in x;
      if shouldToggle {
        var _ := Toggle(net, p);
      }
    }

    /** The loop of `removeChildNodes`, once the children of `p` are out of
        the list: what is shown under each expanded child goes too. */
    method RemoveEach(net: Network, p: Node, ghost d0: seq<Node>) returns (count: nat)
      requires net.Valid() && p < |net.parent| && displayNodes == Without(d0, Elems(net.children[p]))
      modifies this`displayNodes, net`isExpand
      ensures net.Valid()
      ensures displayNodes == Without(d0, Elems(net.children[p]) + Elems(Flatten(net.children, old(net.isExpand), net.children[p], p)))
      ensures count + |net.children[p]| == |Flatten(net.children, old(net.isExpand), net.children[p], p)|
      ensures FlagsAfter(net.isExpand, old(net.isExpand), Elems(Flatten(net.children, old(net.isExpand), net.children[p], p)), toCollapseChild)
      decreases |net.parent| - p, 0, 1
    {
      ghost var ch, ex0 := net.children, net.isExpand;
      var cs := net.children[p];
      ghost var done: seq<Node> := [];
      assert Elems(cs) + Elems(done) == Elems(cs);
      count := 0;
      var k := 0;
      while k < |cs|
        invariant 0 <= k <= |cs| && net.Valid() && net.children == ch
        invariant done == Flatten(ch, ex0, cs[..k], p)
        invariant count + k == |done|
        invariant displayNodes == Without(d0, Elems(cs) + Elems(done))
        invariant FlagsAfter(net.isExpand, ex0, Elems(done), toCollapseChild)
      {
        var removed;
        removed, done := RemoveChildAt(net, p, k, d0, ex0, done);
        count := count + removed;
        k := k + 1;
      }
      assert cs[..k] == cs;
    }

    /** One turn of the loop over the children of `p`: child `k` leaves the
        display together with what is shown below it. */
    method RemoveChildAt(net: Network, p: Node, k: nat, ghost d0: seq<Node>, ghost ex0: seq<bool>, ghost done: seq<Node>)
      returns (removed: nat, ghost done2: seq<Node>)
      requires net.Valid() && p < |net.parent| && k < |net.children[p]| && |ex0| == |net.children|
      requires done == Flatten(net.children, ex0, net.children[p][..k], p)
      requires displayNodes == Without(d0, Elems(net.children[p]) + Elems(done))
      requires FlagsAfter(net.isExpand, ex0, Elems(done), toCollapseChild)
      modifies this`displayNodes, net`isExpand
      ensures net.Valid() && net.children == old(net.children)
      ensures done2 == Flatten(net.children, ex0, net.children[p][..k + 1], p)
      ensures |done| + 1 + removed == |done2|
      ensures displayNodes == Without(d0, Elems(net.children[p]) + Elems(done2))
      ensures FlagsAfter(net.isExpand, ex0, Elems(done2), toCollapseChild)
      decreases |net.parent| - p, 0, 0
    {
      var c := net.children[p][k];
      ghost var ex1, d1 := net.isExpand, displayNodes;
      removed := RemoveUnder(net, c);
      RemoveStepKeeps(net.parent, net.children, ex0, ex1, net.isExpand, p, k, d0, d1, displayNodes, toCollapseChild);
      done2 := done + ([c] + Below(net.children, ex0, c));
    }

    /** One turn of `removeChildNodes`: when `c` is expanded, collapses it if
        `toCollapseChild` is set and takes what is shown under it out of the
        list. */
    method RemoveUnder(net: Network, c: Node) returns (removed: nat)
      requires net.Valid() && c < |net.parent|
      modifies this`displayNodes, net`isExpand
      ensures net.Valid()
      ensures displayNodes == Without(old(displayNodes), Elems(Below(net.children, old(net.isExpand), c)))
      ensures removed == |Below(net.children, old(net.isExpand), c)|
      ensures FlagsAfter(net.isExpand, old(net.isExpand), Elems([c] + Below(net.children, old(net.isExpand), c)), toCollapseChild)
      decreases |net.parent| - c, 1
    {
      ghost var ch, ex1 := net.children, net.isExpand;
      if net.isExpand[c] {
        if toCollapseChild {
          var _ := Toggle(net, c);
        }
        ghost var ex2 := net.isExpand;
        FlattenSame(ch, ex1, ex2, ch[c], c);
        ghost var b := Flatten(ch, ex1, ch[c], c);
        assert Below(ch, ex1, c) == b;
        removed := RemoveChildNodes(net, c, false);
        CollapsedFlags(ex1, ex2, net.isExpand, c, b, toCollapseChild);
      } else {
        ghost var e := Below(ch, ex1, c);
        assert e == [] && Elems(e) == {};
        WithoutNothing(displayNodes, {});
        removed := 0;
      }
    }
  }

  /** Every node of `ns` is listed when `ns` is flattened. */
  lemma {:induction false} ChildrenListed(ch: seq<seq<Node>>, ex: seq<bool>, ns: seq<Node>, lo: int)
    requires Downward(ch) && |ex| == |ch|
    requires -1 <= lo && forall j :: 0 <= j < |ns| ==> lo < ns[j] < |ch|
    ensures forall y :: y in ns ==> y in Flatten(ch, ex, ns, lo)
    decreases |ns|
  {
    if ns != [] {
      var k := |ns| - 1;
      ChildrenListed(ch, ex, ns[..k], lo);
      FlattenSnoc(ch, ex, ns, lo, k);
      assert ns[..k + 1] == ns;
      forall y | y in ns
        ensures y in Flatten(ch, ex, ns, lo)
      {
        if y != ns[k] {
          assert y in ns[..k];
        }
      }
    }
  }

  /** One turn of the loop of `removeChildNodes` keeps its invariant: the
      list lacks the children of `p` and everything listed under the first
      `k` of them, and exactly those have had their flags updated. */
  lemma RemoveStepKeeps(parent: seq<Option<Node>>, ch: seq<seq<Node>>, ex0: seq<bool>, ex1: seq<bool>, ex2: seq<bool>,
                        p: Node, k: nat, d0: seq<Node>, d1: seq<Node>, d2: seq<Node>, tc: bool)
    requires WellFormed(parent, ch) && |ex0| == |ch| && p < |ch| && k < |ch[p]|
    requires FlagsAfter(ex1, ex0, Elems(Flatten(ch, ex0, ch[p][..k], p)), tc)
    requires d1 == Without(d0, Elems(ch[p]) + Elems(Flatten(ch, ex0, ch[p][..k], p)))
    requires d2 == Without(d1, Elems(Below(ch, ex1, ch[p][k])))
    requires FlagsAfter(ex2, ex1, Elems([ch[p][k]] + Below(ch, ex1, ch[p][k])), tc)
    ensures Below(ch, ex1, ch[p][k]) == Below(ch, ex0, ch[p][k])
    ensures var done := Flatten(ch, ex0, ch[p][..k + 1], p);
      done == Flatten(ch, ex0, ch[p][..k], p) + ([ch[p][k]] + Below(ch, ex0, ch[p][k])) &&
      d2 == Without(d0, Elems(ch[p]) + Elems(done)) &&
      FlagsAfter(ex2, ex0, Elems(done), tc)
  {
    var cs, c := ch[p], ch[p][k];
    var done := Flatten(ch, ex0, cs[..k], p);
    var below := Below(ch, ex0, c);
    SiblingsApart(parent, ch, ex0, p, k);
    BelowSame(ch, ex0, ex1, c);
    FlagsCompose(ex0, ex1, ex2, Elems(done), Elems([c] + below), tc);
    FlattenSnoc(ch, ex0, cs, p, k);
    ConcatAssoc(done, [c], below);
    assert Elems(done + ([c] + below)) == Elems(done) + Elems([c] + below);
    RemoveStepDisplay(d0, d1, d2, cs, done, c, below);
  }

  /** Removing what lies below child `c` after the children and what was
      already removed below earlier children removes the children and all
      of that, `c`'s part included. */
  lemma RemoveStepDisplay(d0: seq<Node>, d1: seq<Node>, d2: seq<Node>, cs: seq<Node>, done: seq<Node>, c: Node, below: seq<Node>)
    requires c in cs && d1 == Without(d0, Elems(cs) + Elems(done)) && d2 == Without(d1, Elems(below))
    ensures d2 == Without(d0, Elems(cs) + Elems(done + ([c] + below)))
  {
    WithoutTwice(d0, Elems(cs) + Elems(done), Elems(below));
    assert Elems(cs) + Elems(done) + Elems(below) == Elems(cs) + Elems(done + ([c] + below));
  }

  /** The flags after the nodes of `gone` were taken out of the list:
      with `tc` set, those of them that were expanded are collapsed. */
  ghost predicate FlagsAfter(ex: seq<bool>, ex0: seq<bool>, gone: set<Node>, tc: bool)
  {
    |ex| == |ex0| && forall j :: 0 <= j < |ex0| ==> ex[j] == if j in gone then ex0[j] && !tc else ex0[j]
  }

  /** The flags after folding up `c` (when `tc`) and then everything shown
      below it. */
  lemma CollapsedFlags(ex1: seq<bool>, ex2: seq<bool>, ex3: seq<bool>, c: Node, b: seq<Node>, tc: bool)
    requires c < |ex1| && ex1[c] && |ex3| == |ex1|
    requires ex2 == if tc then ex1[c := false] else ex1
    requires ex3[c] == ex2[c]
    requires forall j :: 0 <= j < |ex3| && j != c ==> ex3[j] == (ex2[j] && !(tc && j in b))
    ensures FlagsAfter(ex3, ex1, Elems([c] + b), tc)
  {
    forall j | 0 <= j < |ex1|
      ensures ex3[j] == if j in Elems([c] + b) then ex1[j] && !tc else ex1[j]
    {
      if j != c {
        assert j in Elems([c] + b) <==> j in b;
      }
    }
  }

  lemma FlagsCompose(ex0: seq<bool>, ex1: seq<bool>, ex2: seq<bool>, a: set<Node>, b: set<Node>, tc: bool)
    requires FlagsAfter(ex1, ex0, a, tc) && FlagsAfter(ex2, ex1, b, tc) && a !! b
    ensures FlagsAfter(ex2, ex0, a + b, tc)
  {
  }

  /** What lies under `n` depends only on the flags of `n` and of the
      nodes listed under it. */
  lemma BelowSame(ch: seq<seq<Node>>, ex: seq<bool>, ex2: seq<bool>, n: Node)
    requires Downward(ch) && |ex| == |ch| && |ex2| == |ch| && n < |ch|
    requires ex2[n] == ex[n] && forall m :: m in Below(ch, ex, n) ==> ex2[m] == ex[m]
    ensures Below(ch, ex2, n) == Below(ch, ex, n)
  {
    if ch[n] != [] && ex[n] {
      FlattenSame(ch, ex, ex2, ch[n], n);
    }
  }

  /** Listing the first `k + 1` children of `p`: the `k`-th child and what
      lies under it are not among what the earlier ones listed. */
  lemma SiblingsApart(parent: seq<Option<Node>>, ch: seq<seq<Node>>, ex: seq<bool>, p: Node, k: nat)
    requires WellFormed(parent, ch) && |ex| == |ch| && p < |ch| && k < |ch[p]|
    ensures var done, c := Flatten(ch, ex, ch[p][..k], p), ch[p][k];
      c !in done && c !in Below(ch, ex, c) && forall y :: y in done ==> y !in Below(ch, ex, c)
  {
    var cs := ch[p][..k + 1];
    assert forall i :: 0 <= i < |cs| ==> cs[i] == ch[p][i];
    FlattenNoDup(parent, ch, ex, cs, p, Some(p));
    FlattenSnoc(ch, ex, ch[p], p, k);
    NoDupParts(Flatten(ch, ex, ch[p][..k], p), ch[p][k], Below(ch, ex, ch[p][k]));
  }

  /** Inserting right after the middle part of a list. */
  lemma InsertInMiddle(front: seq<Node>, mid: seq<Node>, back: seq<Node>, t: Node)
    ensures InsertAt(front + mid + back, |front| + |mid|, t) == front + (mid + [t]) + back
  {
    var d := front + mid + back;
    assert d[..|front| + |mid|] == front + mid;
    assert d[|front| + |mid|..] == back;
  }

  /** Inserting a whole run right after the middle part of a list. */
  lemma InsertInMiddle2(front: seq<Node>, mid: seq<Node>, back: seq<Node>, run: seq<Node>)
    ensures var d := front + mid + back;
      d[..|front| + |mid|] + run + d[|front| + |mid|..] == front + (mid + run) + back
  {
    var d := front + mid + back;
    assert d[..|front| + |mid|] == front + mid;
    assert d[|front| + |mid|..] == back;
  }
}
