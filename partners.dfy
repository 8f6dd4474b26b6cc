/** The partner lists of an ABO and the `ABOPV` getters built on them: which
    direct children are ABOs, which of those are independent (their
    first-bonus rate has reached the top rate), and the personal-group volume
    that remains once the independent groups are taken out. Everything here
    reads a snapshot of the network and changes nothing. */
module Partners {
  import opened Wrappers
  import opened Rates
  import opened Entities
  import opened Forest
  import opened MemberNetwork

  /** What the partner, bonus and title getters read: the child lists, the
      members and the two volumes of every node. */
  datatype Book = Book(children: seq<seq<Node>>, member: seq<Member>, personal: seq<real>, group: seq<real>)

  /** The book of a network, as the getters see it at this moment. */
  function Snapshot(net: Network): Book
    reads net`children, net`member, net`personal, net`group
  {
    Book(net.children, net.member, net.personal, net.group)
  }

  /** A readable book: children come after their parents, every field has one
      entry per node, and every ABO's group volume reaches the last threshold
      of the rate table (below it `getFirstBonusRate` finds no row and throws). */
  ghost predicate Ok(b: Book)
  {
    && Downward(b.children)
    && |b.member| == |b.children| && |b.personal| == |b.children| && |b.group| == |b.children|
    && forall i :: 0 <= i < |b.children| && b.member[i].kind == Abo ==> b.group[i] >= -0.1
  }

  /** Every entry of `cs` is a node of the book. */
  ghost predicate Nodes(b: Book, cs: seq<Node>)
  {
    forall k :: 0 <= k < |cs| ==> cs[k] < |b.children|
  }

  predicate IsAbo(b: Book, n: Node)
    requires n < |b.member|
  {
    b.member[n].kind == Abo
  }

  /** `ABO.firstBonusRate`: the rate looked up from the ABO's group volume. */
  function FirstBonusRate(b: Book, n: Node): (r: real)
    requires Ok(b) && n < |b.children| && IsAbo(b, n)
    ensures 0.0 <= r <= FirstBonusMaxRate
    ensures r == FirstBonusMaxRate <==> b.group[n] >= 1000.0
  {
    GetFirstBonusRate(b.group[n])
  }

  /** `AmNode.isIndependent` (and `ABO.isIndependent` for an ABO): an ABO whose
      first-bonus rate is the top rate, which is a group volume of 1000 or more. */
  predicate IsIndependent(b: Book, n: Node)
    requires Ok(b) && n < |b.children|
    ensures IsIndependent(b, n) ==> IsAbo(b, n) && b.group[n] >= 1000.0
  {
    IsAbo(b, n) && FirstBonusRate(b, n) >= FirstBonusMaxRate
  }

  /** Independence read off the group volume alone. */
  lemma IndependentIff(b: Book, n: Node)
    requires Ok(b) && n < |b.children|
    ensures IsIndependent(b, n) <==> b.member[n].kind == Abo && b.group[n] >= 1000.0
  {
  }

  /** The ABOs of `cs`, in order. */
  function AboIn(b: Book, cs: seq<Node>): (r: seq<Node>)
    requires Ok(b) && Nodes(b, cs)
    ensures |r| <= |cs| && Nodes(b, r)
    ensures forall n :: n in r <==> n in cs && IsAbo(b, n)
  {
    if cs == [] then []
    else
      var c := cs[|cs| - 1];
      AboIn(b, cs[..|cs| - 1]) + (if IsAbo(b, c) then [c] else [])
  }

  /** The independent members of `cs`, in order (`independentList` when `cs`
      is a child list). */
  function IndependentIn(b: Book, cs: seq<Node>): (r: seq<Node>)
    requires Ok(b) && Nodes(b, cs)
    ensures |r| <= |cs| && Nodes(b, r)
    ensures forall n :: n in r <==> n in cs && IsIndependent(b, n)
  {
    if cs == [] then []
    else
      var c := cs[|cs| - 1];
      IndependentIn(b, cs[..|cs| - 1]) + (if IsIndependent(b, c) then [c] else [])
  }

  /** The members of `cs` that are not independent ABOs, in order: the ones
      whose group volume stays in the personal group. */
  function SupportIn(b: Book, cs: seq<Node>): (r: seq<Node>)
    requires Ok(b) && Nodes(b, cs)
    ensures |r| <= |cs| && Nodes(b, r)
    ensures forall n :: n in r <==> n in cs && !IsIndependent(b, n)
  {
    if cs == [] then []
    else
      var c := cs[|cs| - 1];
      SupportIn(b, cs[..|cs| - 1]) + (if IsIndependent(b, c) then [] else [c])
  }

  /** Filtering the ABOs first and then the independent ones gives the same
      list as filtering the independent ones directly: `independentPartners`
      and `independentList` agree. */
  lemma {:induction false} IndependentOfAbo(b: Book, cs: seq<Node>)
    requires Ok(b) && Nodes(b, cs)
    ensures IndependentIn(b, AboIn(b, cs)) == IndependentIn(b, cs)
  {
    if cs != [] {
      var c, init := cs[|cs| - 1], cs[..|cs| - 1];
      IndependentOfAbo(b, init);
      var a := AboIn(b, init);
      if IsAbo(b, c) {
        assert (a + [c])[..|a + [c]| - 1] == a;
      } else {
        assert a + [] == a;
      }
    }
  }

  /** A list's sum splits into its independent members and the rest. */
  lemma {:induction false} SumSplit(b: Book, g: seq<real>, cs: seq<Node>)
    requires Ok(b) && Nodes(b, cs) && |g| == |b.children|
    ensures SumOver(g, cs) == SumOver(g, IndependentIn(b, cs)) + SumOver(g, SupportIn(b, cs))
  {
    if cs != [] {
      var c, init := cs[|cs| - 1], cs[..|cs| - 1];
      SumSplit(b, g, init);
      assert SumOver(g, cs) == SumOver(g, init) + g[c];
      var ind, sup := IndependentIn(b, init), SupportIn(b, init);
      if IsIndependent(b, c) {
        assert IndependentIn(b, cs) == ind + [c] && SupportIn(b, cs) == sup;
        SumOverAppend(g, ind, c);
      } else {
        assert IndependentIn(b, cs) == ind && SupportIn(b, cs) == sup + [c];
        SumOverAppend(g, sup, c);
      }
    }
  }

  /** `aboPartners` of `x`: its ABO children in child order. */
  function AboPartners(b: Book, x: Node): (r: seq<Node>)
    requires Ok(b) && x < |b.children|
    ensures forall n :: n in r <==> n in b.children[x] && IsAbo(b, n)
    ensures forall k :: 0 <= k < |r| ==> x < r[k] < |b.children|
  {
    var r := AboIn(b, b.children[x]);
    assert forall k :: 0 <= k < |r| ==> r[k] in b.children[x];
    r
  }

  /** `independentPartners` of `x`: the independent ones among its ABO
      partners, which are exactly its independent children. */
  function IndependentPartners(b: Book, x: Node): (r: seq<Node>)
    requires Ok(b) && x < |b.children|
    ensures r == IndependentIn(b, b.children[x])
    ensures forall n :: n in r <==> n in b.children[x] && IsIndependent(b, n)
    ensures forall k :: 0 <= k < |r| ==> x < r[k] < |b.children|
  {
    IndependentOfAbo(b, b.children[x]);
    var r := IndependentIn(b, AboIn(b, b.children[x]));
    assert forall k :: 0 <= k < |r| ==> r[k] in b.children[x];
    r
  }

  /** `ABOPV.independent`: the group volume of the independent partners. */
  function IndependentVolume(b: Book, x: Node): (r: real)
    requires Ok(b) && x < |b.children|
    ensures IndependentPartners(b, x) == [] ==> r == 0.0
    ensures r >= 1000.0 * (|IndependentPartners(b, x)| as real)
  {
    IndependentSum(b, IndependentPartners(b, x));
    SumOver(b.group, IndependentPartners(b, x))
  }

  /** Every independent node carries a group volume of at least 1000. */
  lemma {:induction false} IndependentSum(b: Book, ns: seq<Node>)
    requires Ok(b) && forall k :: 0 <= k < |ns| ==> ns[k] < |b.children| && IsIndependent(b, ns[k])
    ensures SumOver(b.group, ns) >= 1000.0 * (|ns| as real)
  {
    if ns != [] {
      var init := ns[..|ns| - 1];
      assert forall k :: 0 <= k < |init| ==> init[k] == ns[k];
      IndependentSum(b, init);
    }
  }

  /** `ABOPV.personalGroup`: the group volume less the independent partners'. */
  function PersonalGroup(b: Book, x: Node): (r: real)
    requires Ok(b) && x < |b.children|
    ensures r + IndependentVolume(b, x) == b.group[x]
  {
    b.group[x] - IndependentVolume(b, x)
  }

  /** When the group volumes roll up, the personal group is the member's own
      volume plus the groups of its children that are not independent ABOs. */
  lemma PersonalGroupRollup(b: Book, x: Node)
    requires Ok(b) && x < |b.children| && Rollup(b.children, b.personal, b.group)
    ensures PersonalGroup(b, x) == b.personal[x] + SumOver(b.group, SupportIn(b, b.children[x]))
  {
    SumSplit(b, b.group, b.children[x]);
  }

  /** `isQualifiedPIN`: not implemented; it answers no for every title. */
  predicate IsQualifiedPin(b: Book, x: Node, pin: PinTitle)
    requires x < |b.children|
    ensures !IsQualifiedPin(b, x, pin)
  {
    false
  }

  /** `isPureIndependent`: independent, with no independent partner. */
  predicate IsPureIndependent(b: Book, x: Node)
    requires Ok(b) && x < |b.children|
    ensures IsPureIndependent(b, x) ==> PersonalGroup(b, x) == b.group[x] >= 1000.0
  {
    IsIndependent(b, x) && IndependentPartners(b, x) == []
  }

  /** `pureIndependentDownline`: for each independent partner in turn, the
      partner itself when it has no independent partner, else its own pure
      independent downline. */
  function PureIndependentDownline(b: Book, x: Node): (r: seq<Node>)
    requires Ok(b) && x < |b.children|
    ensures forall k :: 0 <= k < |r| ==> x < r[k] < |b.children|
    decreases |b.children| - x, 1
  {
    PureDownlineOf(b, IndependentPartners(b, x), x)
  }

  /** The pure independent downline collected over the partners `subs` of a
      node `lo`. */
  function PureDownlineOf(b: Book, subs: seq<Node>, lo: Node): (r: seq<Node>)
    requires Ok(b) && forall k :: 0 <= k < |subs| ==> lo < subs[k] < |b.children|
    ensures forall k :: 0 <= k < |r| ==> lo < r[k] < |b.children|
    decreases |b.children| - lo, 0, |subs|
  {
    if subs == [] then []
    else
      var s := subs[|subs| - 1];
      PureDownlineOf(b, subs[..|subs| - 1], lo) +
        (if IndependentPartners(b, s) == [] then [s] else PureIndependentDownline(b, s))
  }

  /** Every node of the pure independent downline is a pure independent. */
  lemma {:induction false} PureDownlineIsPure(b: Book, x: Node)
    requires Ok(b) && x < |b.children|
    ensures forall k :: 0 <= k < |PureIndependentDownline(b, x)| ==>
      IsPureIndependent(b, PureIndependentDownline(b, x)[k])
    decreases |b.children| - x, 1
  {
    PureOfIsPure(b, IndependentPartners(b, x), x);
  }

  lemma {:induction false} PureOfIsPure(b: Book, subs: seq<Node>, lo: Node)
    requires Ok(b) && forall k :: 0 <= k < |subs| ==> lo < subs[k] < |b.children|
    requires forall k :: 0 <= k < |subs| ==> IsIndependent(b, subs[k])
    ensures forall k :: 0 <= k < |PureDownlineOf(b, subs, lo)| ==> IsPureIndependent(b, PureDownlineOf(b, subs, lo)[k])
    decreases |b.children| - lo, 0, |subs|
  {
    if subs != [] {
      var s, init := subs[|subs| - 1], subs[..|subs| - 1];
      PureOfIsPure(b, init, lo);
      var front := PureDownlineOf(b, init, lo);
      var tail := if IndependentPartners(b, s) == [] then [s] else PureIndependentDownline(b, s);
      if IndependentPartners(b, s) != [] {
        PureDownlineIsPure(b, s);
      }
      assert PureDownlineOf(b, subs, lo) == front + tail;
      forall k | 0 <= k < |front + tail|
        ensures IsPureIndependent(b, (front + tail)[k])
      {
        if k < |front| {
          assert (front + tail)[k] == front[k];
        } else {
          assert (front + tail)[k] == tail[k - |front|];
        }
      }
    }
  }
}
