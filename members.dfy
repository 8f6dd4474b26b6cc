/** `AmMember` and `ABO`: the stamp of a member, the walk up its sponsor
    chain, the partner lists built child by child, the line of sponsorship,
    the monthly close that stores a record, and the reset of the bases. */
module Members {
  import opened Wrappers
  import opened Calendar
  import opened Entities
  import opened Forest
  import opened MemberNetwork
  import opened Ledger
  import opened Partners
  import opened Bonus
  import opened Pin

  /** `setIDStamp`: replaces the member's stamp and nothing else. */
  method SetIdStamp(net: Network, x: Node, stamp: int)
    requires net.Valid() && x < |net.parent|
    modifies net`member
    ensures net.Valid()
    ensures net.member == old(net.member)[x := old(net.member[x]).(stamp := stamp)]
  {
    net.member := net.member[x := net.member[x].(stamp := stamp)];
  }

  /** `sponsor`: the member of the parent node, which must be an ABO. */
  function Sponsor(parent: seq<Option<Node>>, member: seq<Member>, x: Node): (r: Option<Node>)
    requires Ordered(parent) && x < |parent| && |member| == |parent| && SponsorsUp(parent, member, x)
    ensures r.Some? <==> parent[x].Some?
    ensures r.Some? ==> r.value < x && r.value == parent[x].value && member[r.value].kind == Abo
  {
    parent[x]
  }

  /** `findSponsorByID`: the member itself when it carries the stamp, else
      the search continues from its sponsor; none when the chain ends. */
  function FindSponsorById(parent: seq<Option<Node>>, member: seq<Member>, x: Node, id: int): (r: Option<Node>)
    requires Ordered(parent) && x < |parent| && |member| == |parent| && SponsorsUp(parent, member, x)
    ensures r.Some? ==> r.value <= x && IsAncestorOrSelf(parent, r.value, x) && member[r.value].stamp == id
    ensures r.Some? ==> forall j :: 0 <= j < |parent| && IsAncestorOrSelf(parent, j, x) && r.value < j ==> member[j].stamp != id
    ensures r.None? ==> forall j :: 0 <= j < |parent| && IsAncestorOrSelf(parent, j, x) ==> member[j].stamp != id
    decreases x
  {
    if member[x].stamp == id then
      AncestorsNotAfter(parent, x);
      Some(x)
    else if parent[x].None? then None
    else
      StrictAncestors(parent, x);
      FindSponsorById(parent, member, parent[x].value, id)
  }

  lemma AncestorsNotAfter(parent: seq<Option<Node>>, x: Node)
    requires Ordered(parent) && x < |parent|
    ensures forall j :: 0 <= j < |parent| && IsAncestorOrSelf(parent, j, x) ==> j <= x
  {
    forall j | 0 <= j < |parent| && IsAncestorOrSelf(parent, j, x)
      ensures j <= x
    {
      AncestorNotAfter(parent, j, x);
    }
  }

  /** `isUplineSponsor`: the leader is found strictly above the member. */
  function IsUplineSponsor(parent: seq<Option<Node>>, member: seq<Member>, x: Node, leader: Node): (r: bool)
    requires Ordered(parent) && x < |parent| && |member| == |parent| && SponsorsUp(parent, member, x)
    ensures r <==> IsAncestorOrSelf(parent, leader, x) && leader != x
    decreases x
  {
    if parent[x].None? then false
    else
      StrictAncestors(parent, x);
      if parent[x].value == leader then true
      else IsUplineSponsor(parent, member, parent[x].value, leader)
  }

  /** `buildLOS`: the member, then each sponsor in turn up to `top`; nothing
      when `top` is not strictly above the member. */
  method BuildLos(net: Network, x: Node, top: Node) returns (los: Option<seq<Node>>)
    requires net.Valid() && x < |net.parent| && SponsorsUp(net.parent, net.member, x)
    ensures los.Some? <==> IsAncestorOrSelf(net.parent, top, x) && top != x
    ensures los.Some? ==> |los.value| >= 2 && los.value[0] == x && los.value[|los.value| - 1] == top
    ensures los.Some? ==> forall k :: 0 <= k < |los.value| - 1 ==> los.value[k] < |net.parent| && net.parent[los.value[k]] == Some(los.value[k + 1])
    ensures los.Some? ==> forall k :: 0 <= k < |los.value| - 1 ==> los.value[k] != top
  {
    var parent := net.parent;
    var list: seq<Node> := [x];
    if parent[x].Some? {
      StrictAncestors(parent, x);
    }
    var mySponsor := parent[x];
    while mySponsor.Some?
      invariant |list| >= 1 && list[0] == x
      invariant forall k :: 0 <= k < |list| ==> list[k] < |parent|
      invariant forall k :: 0 <= k < |list| - 1 ==> parent[list[k]] == Some(list[k + 1])
      invariant forall k :: 1 <= k < |list| ==> list[k] != top
      invariant mySponsor == parent[list[|list| - 1]]
      invariant (IsAncestorOrSelf(parent, top, x) && top != x) <==>
        (mySponsor.Some? && IsAncestorOrSelf(parent, top, mySponsor.value))
      decreases if mySponsor.Some? then mySponsor.value + 1 else 0
    {
      var s := mySponsor.value;
      list := list + [s];
      if s == top {
        return Some(list);
      }
      if parent[s].Some? {
        StrictAncestors(parent, s);
      }
      mySponsor := parent[s];
    }
    return None;
  }

  /** `supportMembers`: the members of the child nodes, in child order. */
  method SupportMembers(b: Book, x: Node) returns (members: seq<Node>)
    requires Ok(b) && x < |b.children|
    ensures members == b.children[x]
  {
    var cs := b.children[x];
    members := [];
    var k := 0;
    while k < |cs|
      invariant 0 <= k <= |cs| && members == cs[..k]
    {
      members := members + [cs[k]];
      k := k + 1;
    }
    assert cs[..k] == cs;
  }

  /** `aboPartners`, built by appending each ABO child in turn. */
  method AboPartnerList(b: Book, x: Node) returns (list: seq<Node>)
    requires Ok(b) && x < |b.children|
    ensures list == AboPartners(b, x)
  {
    var cs := b.children[x];
    list := [];
    var k := 0;
    while k < |cs|
      invariant 0 <= k <= |cs| && list == AboIn(b, cs[..k])
    {
      assert cs[..k + 1][..k] == cs[..k];
      if IsAbo(b, cs[k]) {
        list := list + [cs[k]];
      }
      k := k + 1;
    }
    assert cs[..k] == cs;
  }

  /** `independentPartners`, built by appending each independent ABO
      partner in turn. */
  method IndependentPartnerList(b: Book, x: Node) returns (list: seq<Node>)
    requires Ok(b) && x < |b.children|
    ensures list == IndependentPartners(b, x)
  {
    var abos := AboPartnerList(b, x);
    assert Nodes(b, abos);
    list := [];
    var k := 0;
    while k < |abos|
      invariant 0 <= k <= |abos| && list == IndependentIn(b, abos[..k])
    {
      assert abos[..k + 1][..k] == abos[..k];
      if IsIndependent(b, abos[k]) {
        list := list + [abos[k]];
      }
      k := k + 1;
    }
    assert abos[..k] == abos;
    IndependentOfAbo(b, b.children[x]);
  }

  // ---------------------------------------------------------------------------
  // Month close

  /** The index of the first record for `month`, as `firstOrNull` finds it. */
  function FirstRecordOf(rs: seq<MonthlyRecord>, month: Month, i: nat): (r: Option<nat>)
    requires i <= |rs|
    ensures r.Some? ==> i <= r.value < |rs| && rs[r.value].month == month
    ensures r.Some? ==> forall k :: i <= k < r.value ==> rs[k].month != month
    ensures r.None? ==> forall k :: i <= k < |rs| ==> rs[k].month != month
    decreases |rs| - i
  {
    if i == |rs| then None
    else if rs[i].month == month then Some(i)
    else FirstRecordOf(rs, month, i + 1)
  }

  /** The records `finalizeMonth` keeps: everything before the first record
      for `month`, or all of them when there is none. */
  function Kept(rs: seq<MonthlyRecord>, month: Month): (r: seq<MonthlyRecord>)
    ensures |r| <= |rs| && r == rs[..|r|]
    ensures forall k :: 0 <= k < |r| ==> r[k].month != month
    ensures (forall k :: 0 <= k < |rs| ==> rs[k].month != month) ==> r == rs
    ensures (exists k :: 0 <= k < |rs| && rs[k].month == month) ==> |r| < |rs| && rs[|r|].month == month
  {
    match FirstRecordOf(rs, month, 0)
    case None => rs
    case Some(i) => rs[..i]
  }

  /** The book `evaluate` and `recordAmount` see: the ABO's records cut back
      to the kept ones. */
  function CutBook(b: Book, x: Node, month: Month): (r: Book)
    requires x < |b.member|
    ensures r.children == b.children && r.personal == b.personal && r.group == b.group
    ensures |r.member| == |b.member| && r.member[x].kind == b.member[x].kind
    ensures r.member[x].records == Kept(b.member[x].records, month)
  {
    b.(member := b.member[x := b.member[x].(records := Kept(b.member[x].records, month))])
  }

  /** The record `finalizeMonth` appends: the month, the three volumes, and
      the nine bonus amounts; the PIN field keeps its initial no-title value. */
  function MonthRecord(b: Book, x: Node, month: Month): (r: MonthlyRecord)
    requires Ok(b) && x < |b.children| && IsAbo(b, x)
    ensures r.month == month && r.pin == NoPin
    ensures r.groupPV == b.group[x] && r.personalPV == b.personal[x] && r.personalGroupPV == PersonalGroup(b, x)
    ensures r.firstBonus + r.leadershipBonus + r.rubyBonus + r.monthlyDepthBonus + r.emeraldBonus +
      r.diamondBonus + r.diamondPlusBonus + r.oneTimeBonus + r.faaBonus == TotalBonus(b, x)
    ensures r.firstBonus == Amount(b, x, First) && r.leadershipBonus == Amount(b, x, Leadership) && r.rubyBonus == Amount(b, x, Ruby)
    ensures r.monthlyDepthBonus == Amount(b, x, MonthlyDepth) && r.emeraldBonus == Amount(b, x, Emerald) && r.diamondBonus == Amount(b, x, Diamond)
    ensures r.diamondPlusBonus == Amount(b, x, DiamondPlus) && r.oneTimeBonus == Amount(b, x, OneTime) && r.faaBonus == Amount(b, x, Faa)
  {
    var record := NewRecord(month).(groupPV := b.group[x], personalPV := b.personal[x], personalGroupPV := PersonalGroup(b, x));
    RecordedTotal(b, x, record);
    RecordAmount(b, x, record)
  }

  /** A book in which only the ABO's records and title differ reads the
      same volumes and partners. */
  lemma CutBookOk(b: Book, x: Node, month: Month)
    requires Ok(b) && x < |b.children| && IsAbo(b, x)
    ensures Ok(CutBook(b, x, month)) && IsAbo(CutBook(b, x, month), x)
  {
  }

  /** The ABO as `finalizeMonth` leaves it: the kept records followed by the
      new record, and the evaluated title as its current PIN. */
  function Finalized(b: Book, x: Node, month: Month): (r: Member)
    requires Ok(b) && x < |b.children| && IsAbo(b, x)
    ensures r.kind == b.member[x].kind && r.stamp == b.member[x].stamp && r.name == b.member[x].name
  {
    CutBookOk(b, x, month);
    var cut := CutBook(b, x, month);
    b.member[x].(records := Kept(b.member[x].records, month) + [MonthRecord(cut, x, month)],
                 pin := HighestPin(cut, x, month))
  }

  /** `finalizeMonth`: with no month, nothing happens; otherwise the records
      from the first one for this month on are removed one by one from the
      end, the title is evaluated, and the new record is appended. */
  method FinalizeMonth(net: Network, x: Node, month: AmMonth?)
    requires net.Valid() && x < |net.parent| && Ok(Snapshot(net)) && net.member[x].kind == Abo
    modifies net`member
    ensures net.Valid()
    ensures month == null ==> net.member == old(net.member)
    ensures month != null ==> net.member == old(net.member)[x := Finalized(old(Snapshot(net)), x, month.Value())]
  {
    if month == null {
      return;
    }
    var b := Snapshot(net);
    var finalized := FinalizedMember(b, x, month);
    assert finalized == Finalized(old(Snapshot(net)), x, month.Value());
    net.member := net.member[x := finalized];
  }

  /** The steps of `finalizeMonth` on the ABO: truncate its records, evaluate
      its title on what is left, and append the new record. */
  method FinalizedMember(b: Book, x: Node, month: AmMonth) returns (finalized: Member)
    requires Ok(b) && x < |b.children| && IsAbo(b, x)
    ensures finalized == Finalized(b, x, month.Value())
  {
    var m := month.Value();
    var recs := TruncateRecords(b.member[x].records, m);
    var cut := b.(member := b.member[x := b.member[x].(records := recs)]);
    assert cut == CutBook(b, x, m);
    CutBookOk(b, x, m);
    var title := Evaluate(cut, x, month);
    var record := BuildRecord(cut, x, m);
    finalized := b.member[x].(records := recs + [record], pin := title);
  }

  /** The record `finalizeMonth` appends: a new record for the month, its
      three volumes filled in, then `recordAmount`. */
  method BuildRecord(b: Book, x: Node, month: Month) returns (record: MonthlyRecord)
    requires Ok(b) && x < |b.children| && IsAbo(b, x)
    ensures record == MonthRecord(b, x, month)
  {
    record := NewRecord(month).(groupPV := b.group[x], personalPV := b.personal[x], personalGroupPV := PersonalGroup(b, x));
    record := RecordAmount(b, x, record);
  }

  /** The truncation of `finalizeMonth`: find the first record for the
      month and remove records from the end until it is gone. */
  method TruncateRecords(rs: seq<MonthlyRecord>, month: Month) returns (recs: seq<MonthlyRecord>)
    ensures recs == Kept(rs, month)
  {
    recs := rs;
    var index := FirstRecordIndex(rs, month);
    if index >= 0 {
      while |recs| > index
        invariant index <= |recs| <= |rs| && recs == rs[..|recs|]
      {
        recs := recs[..|recs| - 1];
      }
    }
  }

  /** The search of `finalizeMonth` for an earlier record of the month. */
  method FirstRecordIndex(rs: seq<MonthlyRecord>, month: Month) returns (index: int)
    ensures FirstRecordOf(rs, month, 0).None? ==> index == -1
    ensures FirstRecordOf(rs, month, 0).Some? ==> index == FirstRecordOf(rs, month, 0).value
  {
    var i := 0;
    while i < |rs|
      invariant 0 <= i <= |rs|
      invariant FirstRecordOf(rs, month, 0) == FirstRecordOf(rs, month, i)
    {
      if rs[i].month == month {
        return i;
      }
      i := i + 1;
    }
    return -1;
  }

  /** Closing a month keeps every record before the first one for that
      month, drops the rest, and ends with exactly one record for it. */
  lemma FinalizeTruncates(b: Book, x: Node, month: Month, i: nat)
    requires Ok(b) && x < |b.children| && IsAbo(b, x)
    requires i < |b.member[x].records| && b.member[x].records[i].month == month
    requires forall k :: 0 <= k < i ==> b.member[x].records[k].month != month
    ensures var rs := Finalized(b, x, month).records;
      |rs| == i + 1 && rs[..i] == b.member[x].records[..i] && rs[i].month == month
  {
    var old_rs := b.member[x].records;
    assert FirstRecordOf(old_rs, month, 0) == Some(i) by {
      FirstRecordFound(old_rs, month, 0, i);
    }
  }

  lemma {:induction false} FirstRecordFound(rs: seq<MonthlyRecord>, month: Month, j: nat, i: nat)
    requires j <= i < |rs| && rs[i].month == month
    requires forall k :: j <= k < i ==> rs[k].month != month
    ensures FirstRecordOf(rs, month, j) == Some(i)
    decreases i - j
  {
    if j < i {
      FirstRecordFound(rs, month, j + 1, i);
    }
  }

  /** With no record for the month, nothing is removed and the new record
      goes at the end, even after records of later months. */
  lemma FinalizeAppends(b: Book, x: Node, month: Month)
    requires Ok(b) && x < |b.children| && IsAbo(b, x)
    requires forall k :: 0 <= k < |b.member[x].records| ==> b.member[x].records[k].month != month
    ensures Finalized(b, x, month).records[..|b.member[x].records|] == b.member[x].records
    ensures |Finalized(b, x, month).records| == |b.member[x].records| + 1
  {
  }

  /** The new record stores the volumes, the nine amounts adding up to the
      total, and no title, whatever title the ABO was given. */
  lemma FinalizedRecord(b: Book, x: Node, month: Month)
    requires Ok(b) && x < |b.children| && IsAbo(b, x)
    ensures var rs := Finalized(b, x, month).records;
      var r := rs[|rs| - 1];
      && r.month == month && r.pin == NoPin
      && r.groupPV == b.group[x] && r.personalPV == b.personal[x]
      && r.personalGroupPV == PersonalGroup(b, x)
  {
    CutBookOk(b, x, month);
    var cut := CutBook(b, x, month);
    assert PersonalGroup(cut, x) == PersonalGroup(b, x) by {
      SameVolumesSamePartners(b, cut, x);
    }
  }

  /** Two books that differ only in the members' records and titles give
      the same partners and personal groups. */
  lemma SameVolumesSamePartners(b: Book, c: Book, x: Node)
    requires Ok(b) && Ok(c) && x < |b.children|
    requires c.children == b.children && c.group == b.group && c.personal == b.personal
    requires forall i :: 0 <= i < |b.member| ==> c.member[i].kind == b.member[i].kind
    ensures IndependentPartners(c, x) == IndependentPartners(b, x)
    ensures PersonalGroup(c, x) == PersonalGroup(b, x)
  {
    SameIndependentIn(b, c, b.children[x]);
  }

  lemma {:induction false} SameIndependentIn(b: Book, c: Book, cs: seq<Node>)
    requires Ok(b) && Ok(c) && Nodes(b, cs)
    requires c.children == b.children && c.group == b.group && c.personal == b.personal
    requires forall i :: 0 <= i < |b.member| ==> c.member[i].kind == b.member[i].kind
    ensures IndependentIn(c, cs) == IndependentIn(b, cs)
  {
    if cs != [] {
      SameIndependentIn(b, c, cs[..|cs| - 1]);
    }
  }

  // ---------------------------------------------------------------------------
  // Bases

  /** `totalChange`: the bonus total gained since the last base. */
  function TotalChange(b: Book, base: Base, x: Node): (r: real)
    requires Ok(b) && x < |b.children| && IsAbo(b, x)
    ensures base.total + r == TotalBonus(b, x)
    ensures r == 0.0 <==> TotalBonus(b, x) == base.total
  {
    TotalBonus(b, x) - base.total
  }

  /** `AmBonus.resetBase`: the base total becomes the current total. */
  method BonusResetBase(net: Network, x: Node)
    requires net.Valid() && x < |net.parent| && Ok(Snapshot(net)) && net.member[x].kind == Abo
    modifies net`base
    ensures net.Valid()
    ensures net.base == old(net.base)[x := old(net.base[x]).(total := TotalBonus(Snapshot(net), x))]
    ensures TotalChange(Snapshot(net), net.base[x], x) == 0.0
  {
    net.base := net.base[x := net.base[x].(total := TotalBonus(Snapshot(net), x))];
  }

  /** `resetBase` of a member: the ledger's base for every member, and the
      bonus base too for an ABO. */
  method MemberResetBase(net: Network, x: Node)
    requires net.Valid() && x < |net.parent| && Ok(Snapshot(net))
    modifies net`base
    ensures net.Valid()
    ensures net.base[x].group == net.group[x] && GroupChange(net, x) == 0.0
    ensures net.member[x].kind == Abo ==> TotalChange(Snapshot(net), net.base[x], x) == 0.0
    ensures net.member[x].kind != Abo ==> net.base[x].total == old(net.base[x].total)
    ensures forall i :: 0 <= i < |net.base| && i != x ==> net.base[i] == old(net.base[i])
  {
    Ledger.ResetBase(net, x);
    if net.member[x].kind == Abo {
      BonusResetBase(net, x);
    }
  }
}
