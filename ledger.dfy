/** `AmPV`: a member's personal and group volume. A change to the personal
    volume is pushed up the sponsor chain at once, so every group volume stays
    the member's own volume plus its children's groups. */
module Ledger {
  import opened Wrappers
  import opened Entities
  import opened Forest
  import opened MemberNetwork

  /** Every step up from `x` lands on an ABO, so each `sponsor` cast on the way
      up succeeds. */
  ghost predicate SponsorsUp(parent: seq<Option<Node>>, member: seq<Member>, x: Node)
    requires Ordered(parent) && x < |parent| && |member| == |parent|
  {
    forall j :: 0 <= j < |parent| && IsAncestorOrSelf(parent, j, x) && parent[j].Some? ==>
      member[parent[j].value].kind == Abo
  }

  /** When every parent is an ABO, every chain is. */
  lemma SponsoredUp(parent: seq<Option<Node>>, member: seq<Member>, x: Node)
    requires Ordered(parent) && x < |parent| && AboSponsors(parent, member)
    ensures SponsorsUp(parent, member, x)
  {
  }

  /** `addGroup`: adds `pv` to the group of `x` and of each of its ancestors,
      and to no other node. */
  method AddGroup(net: Network, x: Node, pv: real)
    requires net.Valid() && x < |net.parent| && SponsorsUp(net.parent, net.member, x)
    modifies net`group
    ensures net.Valid()
    ensures forall j :: 0 <= j < |net.group| ==>
      net.group[j] == old(net.group[j]) + (if IsAncestorOrSelf(net.parent, j, x) then pv else 0.0)
    decreases x
  {
    net.group := net.group[x := net.group[x] + pv];
    if net.parent[x].Some? {
      StrictAncestors(net.parent, x);
      AddGroup(net, net.parent[x].value, pv);
    }
  }

  /** Moves the personal volume of `x` by `d` and its group and its ancestors'
      groups with it, which keeps the rollup. */
  method ShiftPersonal(net: Network, x: Node, d: real)
    requires net.Valid() && x < |net.parent| && SponsorsUp(net.parent, net.member, x)
    modifies net`personal, net`group
    ensures net.Valid()
    ensures net.personal == old(net.personal)[x := old(net.personal[x]) + d]
    ensures forall j :: 0 <= j < |net.group| ==>
      net.group[j] == old(net.group[j]) + (if IsAncestorOrSelf(net.parent, j, x) then d else 0.0)
    ensures old(net.Consistent()) ==> net.Consistent()
  {
    ghost var wasConsistent := net.Consistent();
    ghost var g0 := net.group;
    net.personal := net.personal[x := net.personal[x] + d];
    AddGroup(net, x, d);
    if wasConsistent {
      RollupRestored(net.parent, net.children, net.personal, g0, net.group, x, d);
    }
  }

  /** `addPersonal`: a non-negative volume is added to the member and to the
      group of the member and of each ancestor. */
  method AddPersonal(net: Network, x: Node, pv: real)
    requires net.Valid() && x < |net.parent| && SponsorsUp(net.parent, net.member, x)
    requires pv >= 0.0
    modifies net`personal, net`group
    ensures net.Valid()
    ensures net.personal == old(net.personal)[x := old(net.personal[x]) + pv]
    ensures forall j :: 0 <= j < |net.group| ==>
      net.group[j] == old(net.group[j]) + (if IsAncestorOrSelf(net.parent, j, x) then pv else 0.0)
    ensures old(net.Consistent()) ==> net.Consistent()
  {
    ShiftPersonal(net, x, pv);
  }

  /** `subtractPersonal`: takes away `pv`, but never more than the member has;
      returns what was taken, which is the smaller of the two, and leaves a
      personal volume that is not negative. The groups up the chain lose
      exactly what was taken. */
  method SubtractPersonal(net: Network, x: Node, pv: real) returns (taken: real)
    requires net.Valid() && x < |net.parent| && SponsorsUp(net.parent, net.member, x)
    requires pv >= 0.0
    modifies net`personal, net`group
    ensures net.Valid()
    ensures taken <= pv && taken <= old(net.personal[x])
    ensures taken == pv || taken == old(net.personal[x])
    ensures net.personal == old(net.personal)[x := old(net.personal[x]) - taken]
    ensures net.personal[x] >= 0.0
    ensures forall j :: 0 <= j < |net.group| ==>
      net.group[j] == old(net.group[j]) - (if IsAncestorOrSelf(net.parent, j, x) then taken else 0.0)
    ensures old(net.Consistent()) ==> net.Consistent()
  {
    taken := if pv >= net.personal[x] then net.personal[x] else pv;
    ShiftPersonal(net, x, -taken);
  }

  /** `resetPersonal`: sets the personal volume to `pv`, through
      `addPersonal` or `subtractPersonal`; the groups up the chain move by the
      difference. */
  method ResetPersonal(net: Network, x: Node, pv: real)
    requires net.Valid() && x < |net.parent| && SponsorsUp(net.parent, net.member, x)
    requires pv >= 0.0
    modifies net`personal, net`group
    ensures net.Valid()
    ensures net.personal == old(net.personal)[x := pv]
    ensures forall j :: 0 <= j < |net.group| ==>
      net.group[j] == old(net.group[j]) + (if IsAncestorOrSelf(net.parent, j, x) then pv - old(net.personal[x]) else 0.0)
    ensures old(net.Consistent()) ==> net.Consistent()
  {
    var change := pv - net.personal[x];
    if change >= 0.0 {
      AddPersonal(net, x, change);
    } else {
      var taken := SubtractPersonal(net, x, -change);
      assert taken == -change;
    }
  }

  /** The nodes strictly above `x` are the ancestors of its parent. */
  lemma StrictAncestors(parent: seq<Option<Node>>, x: Node)
    requires Ordered(parent) && x < |parent| && parent[x].Some?
    ensures forall j :: 0 <= j < |parent| ==>
      (IsAncestorOrSelf(parent, j, parent[x].value) <==> IsAncestorOrSelf(parent, j, x) && j != x)
  {
    forall j | 0 <= j < |parent| && IsAncestorOrSelf(parent, j, parent[x].value)
      ensures j != x
    {
      AncestorNotAfter(parent, j, parent[x].value);
    }
  }

  /** `addGroupToSponsor`: adds the member's whole group to each strict
      ancestor; its own group is unchanged. */
  method AddGroupToSponsor(net: Network, x: Node)
    requires net.Valid() && x < |net.parent| && SponsorsUp(net.parent, net.member, x)
    modifies net`group
    ensures net.Valid()
    ensures forall j :: 0 <= j < |net.group| ==>
      net.group[j] == old(net.group[j]) + (if IsAncestorOrSelf(net.parent, j, x) && j != x then old(net.group[x]) else 0.0)
  {
    if net.parent[x].Some? {
      StrictAncestors(net.parent, x);
      AddGroup(net, net.parent[x].value, net.group[x]);
    }
  }

  /** `subtractGroupFromSponsor`: the reverse, taking the member's whole
      group out of each strict ancestor. */
  method SubtractGroupFromSponsor(net: Network, x: Node)
    requires net.Valid() && x < |net.parent| && SponsorsUp(net.parent, net.member, x)
    modifies net`group
    ensures net.Valid()
    ensures forall j :: 0 <= j < |net.group| ==>
      net.group[j] == old(net.group[j]) - (if IsAncestorOrSelf(net.parent, j, x) && j != x then old(net.group[x]) else 0.0)
  {
    if net.parent[x].Some? {
      StrictAncestors(net.parent, x);
      AddGroup(net, net.parent[x].value, -net.group[x]);
    }
  }

  /** `groupChange`: the group volume gained since the last base. */
  function GroupChange(net: Network, x: Node): (r: real)
    reads net`group, net`base
    requires x < |net.group| && x < |net.base|
    ensures net.base[x].group + r == net.group[x]
    ensures r == 0.0 <==> net.group[x] == net.base[x].group
  {
    net.group[x] - net.base[x].group
  }

  /** `AmPV.resetBase`: the base becomes the current group, so nothing has
      changed since. */
  method ResetBase(net: Network, x: Node)
    requires net.Valid() && x < |net.parent|
    modifies net`base
    ensures net.Valid()
    ensures net.base == old(net.base)[x := old(net.base[x]).(group := net.group[x])]
    ensures GroupChange(net, x) == 0.0
  {
    net.base := net.base[x := net.base[x].(group := net.group[x])];
  }
}
