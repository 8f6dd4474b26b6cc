/** The child lists of a forest read back off a listing of its nodes:
    the children of a node are the listed nodes whose parent it is, in
    listing order. */
module Listing {
  import opened Wrappers
  import opened Forest

  /** With every node expanded, the siblings `ns` under `par` and their
      descendants, listed as `Flatten` lists them, hold the children of
      any node `p` in child-list order: `ns` itself when `p` is their
      parent, the child list of `p` when `p` is listed, and nothing
      otherwise. */
  lemma {:induction false} FlattenChildren(parent: seq<Option<Node>>, children: seq<seq<Node>>, ns: seq<Node>, lo: int,
                                           par: Option<Node>, p: Node)
    requires WellFormed(parent, children)
    requires -1 <= lo && forall k :: 0 <= k < |ns| ==> lo < ns[k] < |children|
    requires NoDup(ns) && forall k :: 0 <= k < |ns| ==> parent[ns[k]] == par
    requires p < |parent|
    ensures var s := Flatten(children, AllOpen(|children|), ns, lo);
      ChildrenIn(parent, s, p) == if par == Some(p) then ns else if p in s then children[p] else []
    decreases |children| - lo, |ns|
  {
    var ex := AllOpen(|children|);
    if ns != [] {
      var last := |ns| - 1;
      var n, init := ns[last], ns[..last];
      assert init + [n] == ns;
      var a, b := Flatten(children, ex, init, lo), Below(children, ex, n);
      FlattenParts(parent, children, ns, lo, par, p);
      assert ChildrenIn(parent, a, p) == if par == Some(p) then init else if p in a then children[p] else [] by {
        assert NoDup(init) && forall k :: 0 <= k < |init| ==> init[k] == ns[k];
        FlattenChildren(parent, children, init, lo, par, p);
      }
      BelowChildren(parent, children, n, p);
      assert parent[n] == par;
      assert par == Some(p) ==> p !in b && p != n by {
        if par == Some(p) {
          assert p < n;
          assert forall k :: 0 <= k < |b| ==> b[k] != p;
        }
      }
      ChildrenAround(parent, a, n, b, p);
      ChildrenJoined(ChildrenIn(parent, a, p), ChildrenIn(parent, b, p), a, n, b, p, par, init, children[p]);
    }
  }

  /** What lies below `n` holds the children of `n` itself, or of the
      node `p` listed there, in child-list order. */
  lemma {:induction false} BelowChildren(parent: seq<Option<Node>>, children: seq<seq<Node>>, n: Node, p: Node)
    requires WellFormed(parent, children) && n < |children| && p < |parent|
    ensures var b := Below(children, AllOpen(|children|), n);
      ChildrenIn(parent, b, p) == if p == n || p in b then children[p] else []
    decreases |children| - n, |children[n]| + 1
  {
    var ex := AllOpen(|children|);
    if children[n] != [] {
      assert Below(children, ex, n) == Flatten(children, ex, children[n], n);
      FlattenChildren(parent, children, children[n], n, Some(n), p);
    }
  }

  /** A listing of siblings is the listing of all but the last, the last,
      and what lies below the last, and these share no node. */
  lemma FlattenParts(parent: seq<Option<Node>>, children: seq<seq<Node>>, ns: seq<Node>, lo: int, par: Option<Node>, p: Node)
    requires WellFormed(parent, children)
    requires -1 <= lo && forall k :: 0 <= k < |ns| ==> lo < ns[k] < |children|
    requires NoDup(ns) && forall k :: 0 <= k < |ns| ==> parent[ns[k]] == par
    requires ns != []
    ensures var ex, n := AllOpen(|children|), ns[|ns| - 1];
      var a, b := Flatten(children, ex, ns[..|ns| - 1], lo), Below(children, ex, n);
      && Flatten(children, ex, ns, lo) == a + [n] + b
      && n !in a && n !in b && (p in a ==> p !in b)
  {
    var ex, n := AllOpen(|children|), ns[|ns| - 1];
    var a, b := Flatten(children, ex, ns[..|ns| - 1], lo), Below(children, ex, n);
    FlattenNoDup(parent, children, ex, ns, lo, par);
    NoDupSplit3(a, n, b);
  }

  /** Reading the children of `p` off a listing `a`, then a node `n`,
      then a listing `b`. */
  lemma ChildrenAround(parent: seq<Option<Node>>, a: seq<Node>, n: Node, b: seq<Node>, p: Node)
    requires forall k :: 0 <= k < |a| ==> a[k] < |parent|
    requires forall k :: 0 <= k < |b| ==> b[k] < |parent|
    requires n < |parent|
    ensures ChildrenIn(parent, a + [n] + b, p)
            == ChildrenIn(parent, a, p) + (if parent[n] == Some(p) then [n] else []) + ChildrenIn(parent, b, p)
  {
    ChildrenInSnoc(parent, a, n, p);
    ChildrenInAppend(parent, a, n, b, p);
  }

  /** The three parts `x`, the node `n` when `par` is `p`, and `y` read
      off a listing `a`, the node `n` under `par`, and what lies below `n`
      in a listing `b` join into the children of `p`. */
  lemma ChildrenJoined(x: seq<Node>, y: seq<Node>, a: seq<Node>, n: Node, b: seq<Node>, p: Node, par: Option<Node>,
                       init: seq<Node>, cp: seq<Node>)
    requires n !in a && n !in b && (p in a ==> p !in b)
    requires x == if par == Some(p) then init else if p in a then cp else []
    requires y == if p == n || p in b then cp else []
    requires par == Some(p) ==> p !in b && p != n
    ensures x + (if par == Some(p) then [n] else []) + y == if par == Some(p) then init + [n] else if p in a + [n] + b then cp else []
  {
  }
}
