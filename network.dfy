/** The member network as one mutable object. Every `AmNode` together with the
    member it wraps is one node handle, and every field of the objects behind a
    handle (`TreeNode`, `AmNode`, the `AmMember`/`ABO` it carries, its `AmPV`
    ledger and the bases of its `AmPV` and `AmBonus`) is one sequence indexed
    by handle. The operations of each source class live in modules of their
    own and update these fields through the handle. */
module MemberNetwork {
  import opened Wrappers
  import opened Calendar
  import opened Entities
  import opened Forest

  /** The `level` value meaning "not computed yet" (`UNDEFINE`). */
  const Undefined: int := -1

  /** What an `AmMember` carries besides its volumes: its class, its stamp, its
      name and, for an ABO, its monthly records and current PIN title. */
  datatype Member = Member(kind: MemberClass, stamp: int, name: string, records: seq<MonthlyRecord>, pin: PinTitle)

  /** The snapshot `resetBase` takes: the group volume of `AmPV` and the
      bonus total of `AmBonus`. */
  datatype Base = Base(group: real, total: real)

  /** Every parent is an ABO. */
  ghost predicate AboSponsors(parent: seq<Option<Node>>, member: seq<Member>)
  {
    |member| == |parent| &&
    forall i :: 0 <= i < |parent| && parent[i].Some? ==> parent[i].value < |member| && member[parent[i].value].kind == Abo
  }

  /** A detached node of any class keeps every parent an ABO. */
  lemma AboSponsorsWithRoot(parent: seq<Option<Node>>, member: seq<Member>, m: Member)
    requires AboSponsors(parent, member)
    ensures AboSponsors(parent + [None], member + [m])
  {
  }

  class Network {
    // TreeNode
    var parent: seq<Option<Node>>
    var children: seq<seq<Node>>
    var isExpand: seq<bool>
    var level: seq<int>
    // AmNode
    var nodeCount: seq<int>
    // AmMember and ABO
    var member: seq<Member>
    // AmPV and AmBonus
    var personal: seq<real>
    var group: seq<real>
    var base: seq<Base>
    /** The stamp the next created member receives (`contStampID`). */
    var nextStamp: int

    /** The parent and child links form a forest. */
    ghost predicate Shape()
      reads this`parent, this`children
    {
      WellFormed(parent, children)
    }

    /** The forest, with one entry per node in every per-node field. */
    ghost predicate Valid()
      reads this
    {
      Shape() && Sized()
    }

    /** Every per-node field has one entry per node. */
    ghost predicate Sized()
      reads this
    {
      && |children| == |parent|
      && |isExpand| == |parent| && |level| == |parent| && |nodeCount| == |parent|
      && |member| == |parent|
      && |personal| == |parent| && |group| == |parent| && |base| == |parent|
    }

    /** Each parent link is matched by the parent's child list, and each
        node's `group` is its `personal` plus its children's `group`. */
    ghost predicate Consistent()
      reads this`parent, this`children, this`personal, this`group
    {
      Coherent(parent, children, personal, group)
    }

    /** Every node with a parent has an ABO for a parent: `AmMember.sponsor`
        casts the parent's member to `ABO`, and fails on any other class. */
    ghost predicate Sponsored()
      reads this`parent, this`member
    {
      AboSponsors(parent, member)
    }

    /** An empty network; `seed` is the first stamp handed out. */
    constructor (seed: int)
      ensures Valid() && Consistent() && Sponsored()
      ensures parent == [] && nextStamp == seed
    {
      parent, children, isExpand, level, nodeCount := [], [], [], [], [];
      member := [];
      personal, group, base := [], [], [];
      nextStamp := seed;
    }

    /** The `AmMember`, `ABO`, `AmPV` and `AmBonus` initialisers: the member
        takes the next stamp, starts with no records and no title, `group`
        starts equal to `personal` and both bases at zero. */
    method InitMember(k: MemberClass, memberName: string, pv: real)
      modifies this`member, this`nextStamp, this`personal, this`group, this`base
      ensures member == old(member) + [Member(k, old(nextStamp), memberName, [], NoPin)]
      ensures nextStamp == old(nextStamp) + 1
      ensures personal == old(personal) + [pv] && group == old(group) + [pv]
      ensures base == old(base) + [Base(0.0, 0.0)]
    {
      member := member + [Member(k, nextStamp, memberName, [], NoPin)];
      nextStamp := nextStamp + 1;
      personal, group, base := personal + [pv], group + [pv], base + [Base(0.0, 0.0)];
    }

    /** The `TreeNode` and `AmNode` initialisers: no parent, no children,
        collapsed, level not computed, a node count of one. */
    method InitNode()
      modifies this`parent, this`children, this`isExpand, this`level, this`nodeCount
      ensures parent == old(parent) + [None] && children == old(children) + [[]]
      ensures isExpand == old(isExpand) + [false] && level == old(level) + [Undefined]
      ensures nodeCount == old(nodeCount) + [1]
    {
      parent, children, isExpand, level, nodeCount := parent + [None], children + [[]], isExpand + [false], level + [Undefined], nodeCount + [1];
    }

    /** `AmNode(ABO(name, pv))` and the same for the other member classes: a
        fresh member becomes a detached node. A detached node adds nothing to
        anyone's group, so the rollup of the rest of the network stands. */
    method NewMember(k: MemberClass, memberName: string, pv: real) returns (n: Node)
      requires Valid()
      modifies this
      ensures Sized() && n == old(|parent|)
      ensures parent == old(parent) + [None] && children == old(children) + [[]]
      ensures member == old(member) + [Member(k, old(nextStamp), memberName, [], NoPin)]
      ensures nextStamp == old(nextStamp) + 1
      ensures personal == old(personal) + [pv] && group == old(group) + [pv]
      ensures base == old(base) + [Base(0.0, 0.0)]
      ensures isExpand == old(isExpand) + [false] && level == old(level) + [Undefined]
      ensures nodeCount == old(nodeCount) + [1]
      ensures old(Consistent()) ==> Consistent()
      ensures old(Sponsored()) ==> Sponsored()
      ensures Valid()
    {
      n := |parent|;
      ghost var p0, c0, v0, g0 := parent, children, personal, group;
      ghost var m0 := member;
      ghost var wasConsistent, wasSponsored := Consistent(), Sponsored();
      ExtendWithRoot(p0, c0, v0, g0, pv);
      if wasConsistent {
        CoherentWithRoot(p0, c0, v0, g0, pv);
      }
      if wasSponsored {
        AboSponsorsWithRoot(p0, m0, Member(k, nextStamp, memberName, [], NoPin));
      }
      InitMember(k, memberName, pv);
      InitNode();
      assert Shape();
    }
  }
}
