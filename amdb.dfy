/** `AmDB`: the columns of the member table, the statement that creates it,
    and the replay that rebuilds the member network from its rows. The
    database itself is not modelled: a table is the list of its rows. */
module AmDb {
  import opened Wrappers
  import opened Entities
  import opened Forest
  import opened Listing
  import opened MemberNetwork
  import opened Ledger
  import opened Members
  import opened AmNodes

  // ---------------------------------------------------------------------------
  // Table layout

  /** The columns of `DBKeysMembers`; `DBKeysMonthlyRecord` declares the same
      five. */
  datatype DbKey = KeyIdStamp | KeyMemberClass | KeyMemberName | KeyPvPersonal | KeySponsorId

  /** `values()`: the columns in declaration order. */
  const MemberKeys: seq<DbKey> := [KeyIdStamp, KeyMemberClass, KeyMemberName, KeyPvPersonal, KeySponsorId]

  /** `key`: the name of the enum constant. */
  function KeyName(k: DbKey): (r: string)
    ensures |r| > 4 && r[..4] == "KEY_"
  {
    match k
    case KeyIdStamp => "KEY_ID_STAMP"
    case KeyMemberClass => "KEY_MEMBER_CLASS"
    case KeyMemberName => "KEY_MEMBER_NAME"
    case KeyPvPersonal => "KEY_PV_PERSONAL"
    case KeySponsorId => "KEY_SPONSOR_ID"
  }

  /** The Kotlin types a column can be declared with; `when` knows five of
      them and falls through for any other. */
  datatype KotlinType = LongType | IntType | StringType | FloatType | DoubleType | OtherType(name: string)

  /** `type`: the Kotlin type the column holds. */
  function KeyType(k: DbKey): (r: KotlinType)
    ensures !r.OtherType?
    ensures r == LongType <==> k == KeyIdStamp || k == KeySponsorId
  {
    match k
    case KeyIdStamp => LongType
    case KeyMemberClass => IntType
    case KeyMemberName => StringType
    case KeyPvPersonal => FloatType
    case KeySponsorId => LongType
  }

  /** `toDBField`: the column name, a blank and the SQL type that stores the
      Kotlin type; the empty string for a type it does not know. */
  function ToDbField(key: string, kotlinType: KotlinType): (r: string)
    ensures r == "" <==> kotlinType.OtherType?
    ensures r != "" ==> |r| > |key| + 1 && r[..|key| + 1] == key + " "
    ensures r != "" ==> r[|key| + 1..] in {"INT", "SMALLINT", "TEXT", "FLOAT", "DOUBLE"}
    ensures kotlinType == LongType ==> r == key + " INT"
    ensures kotlinType == IntType ==> r == key + " SMALLINT"
    ensures kotlinType == StringType ==> r == key + " TEXT"
    ensures kotlinType == FloatType ==> r == key + " FLOAT"
    ensures kotlinType == DoubleType ==> r == key + " DOUBLE"
  {
    var sqlType :=
      match kotlinType
      case LongType => "INT"
      case IntType => "SMALLINT"
      case StringType => "TEXT"
      case FloatType => "FLOAT"
      case DoubleType => "DOUBLE"
      case OtherType(_) => "";
    if sqlType == "" then ""
    else
      DeclarationParts(key, sqlType);
      key + " " + sqlType
  }

  lemma DeclarationParts(key: string, sqlType: string)
    ensures (key + " " + sqlType)[..|key| + 1] == key + " " && (key + " " + sqlType)[|key| + 1..] == sqlType
  {
  }

  /** The declarations of `keys`, in order. */
  function Fields(keys: seq<DbKey>): (r: seq<string>)
    ensures |r| == |keys|
  {
    seq(|keys|, i requires 0 <= i < |keys| => ToDbField(KeyName(keys[i]), KeyType(keys[i])))
  }

  /** The total length of `fields`. */
  function SumLengths(fields: seq<string>): nat
  {
    if fields == [] then 0 else SumLengths(fields[..|fields| - 1]) + |fields[|fields| - 1]|
  }

  /** The declarations separated by a comma and a blank. */
  function Joined(fields: seq<string>): (r: string)
    ensures fields == [] ==> r == ""
    ensures |fields| == 1 ==> r == fields[0]
    ensures |r| == SumLengths(fields) + 2 * (if fields == [] then 0 else |fields| - 1)
  {
    if |fields| <= 1 then (if fields == [] then "" else fields[0])
    else Joined(fields[..|fields| - 1]) + ", " + fields[|fields| - 1]
  }

  /** The statement that creates table `t` with the columns declared by `fields`. */
  function CreateTable(t: string, fields: seq<string>): (r: string)
    ensures |r| == 17 + |t| + |Joined(fields)|
    ensures r[..15 + |t|] == "CREATE TABLE " + t + " ("
    ensures r[15 + |t|..|r| - 2] == Joined(fields) && r[|r| - 2..] == ");"
  {
    "CREATE TABLE " + t + " (" + Joined(fields) + ");"
  }

  /** `toSqlCreate`: the first declaration, then each further one after a
      comma, all inside the parentheses of `CREATE TABLE`. */
  method ToSqlCreate(tableName: string, keys: seq<DbKey>) returns (sqlCmd: string)
    ensures sqlCmd == CreateTable(tableName, Fields(keys))
  {
    var fields := Fields(keys);
    sqlCmd := "CREATE TABLE " + tableName + " (";
    sqlCmd := AppendFields(sqlCmd, fields);
    ClosedCommand(tableName, fields, sqlCmd);
    sqlCmd := sqlCmd + ");";
  }

  /** The declarations appended to the command: the first one as it is,
      each further one after a comma and a blank. */
  method AppendFields(head: string, fields: seq<string>) returns (cmd: string)
    ensures cmd == head + Joined(fields)
  {
    cmd := head;
    if |fields| > 0 {
      cmd := cmd + fields[0];
      JoinedFirst(fields);
      var i := 1;
      while i < |fields|
        invariant 1 <= i <= |fields| && cmd == head + Joined(fields[..i])
      {
        ExtendCommand(head, fields, i);
        cmd := cmd + ", " + fields[i];
        i := i + 1;
      }
      assert fields[..i] == fields;
    } else {
      assert head + Joined(fields) == head;
    }
  }

  /** The first declaration alone is the join of the one-element prefix. */
  lemma JoinedFirst(fields: seq<string>)
    requires 0 < |fields|
    ensures Joined(fields[..1]) == fields[0]
  {
    assert fields[..1] == [fields[0]];
  }

  /** The command built up to the joined declarations, closed, is the whole statement. */
  lemma ClosedCommand(t: string, fields: seq<string>, cmd: string)
    requires cmd == "CREATE TABLE " + t + " (" + Joined(fields)
    ensures cmd + ");" == CreateTable(t, fields)
  {
  }

  /** The command so far, followed by the separator and the next field. */
  lemma ExtendCommand(head: string, fields: seq<string>, i: nat)
    requires 0 < i < |fields|
    ensures head + Joined(fields[..i]) + ", " + fields[i] == head + Joined(fields[..i + 1])
  {
    JoinedSnoc(fields, i);
    assert head + Joined(fields[..i]) + ", " + fields[i] == head + (Joined(fields[..i]) + ", " + fields[i]);
  }

  lemma JoinedSnoc(fields: seq<string>, i: nat)
    requires 0 < i < |fields|
    ensures Joined(fields[..i + 1]) == Joined(fields[..i]) + ", " + fields[i]
  {
    assert fields[..i + 1][..i] == fields[..i];
  }

  /** The member table is created with the five columns in declaration
      order; both stamps are stored as `INT`. */
  lemma MemberTableSql(t: string)
    ensures CreateTable(t, Fields(MemberKeys)) ==
      "CREATE TABLE " + t + " (" + ("KEY_ID_STAMP" + " " + "INT") + ", " + ("KEY_MEMBER_CLASS" + " " + "SMALLINT") +
      ", " + ("KEY_MEMBER_NAME" + " " + "TEXT") + ", " + ("KEY_PV_PERSONAL" + " " + "FLOAT") +
      ", " + ("KEY_SPONSOR_ID" + " " + "INT") + ");"
  {
    var f := Fields(MemberKeys);
    MemberFields();
    assert f[..1] == [f[0]];
    JoinedSnoc(f, 1);
    JoinedSnoc(f, 2);
    JoinedSnoc(f, 3);
    JoinedSnoc(f, 4);
    assert f[..5] == f;
    assert Joined(f) == f[0] + ", " + f[1] + ", " + f[2] + ", " + f[3] + ", " + f[4];
  }

  lemma MemberFields()
    ensures var f := Fields(MemberKeys);
      && f[0] == "KEY_ID_STAMP" + " " + "INT"
      && f[1] == "KEY_MEMBER_CLASS" + " " + "SMALLINT"
      && f[2] == "KEY_MEMBER_NAME" + " " + "TEXT"
      && f[3] == "KEY_PV_PERSONAL" + " " + "FLOAT"
      && f[4] == "KEY_SPONSOR_ID" + " " + "INT"
  {
  }

  // ---------------------------------------------------------------------------
  // Replaying rows

  /** What replaying the rows comes to: for each row, the row of its sponsor
      (none for a root); or the load gives up with `NetworkDBException`; or
      it fails outside that handler, on an ordinal that names no class or a
      sponsor that is not an ABO. */
  datatype Replayed = Built(links: seq<Option<nat>>) | Aborted | Crashed

  /** Every link points to an earlier row. */
  ghost predicate Backward(links: seq<Option<nat>>)
  {
    forall k :: 0 <= k < |links| && links[k].Some? ==> links[k].value < k
  }

  /** `findSponsorByID` read on the rows: from row `k` up the links to the
      first row carrying the stamp `id`. */
  function FindRow(rows: seq<MemberRow>, links: seq<Option<nat>>, k: nat, id: int): (r: Option<nat>)
    requires Backward(links) && k < |links| <= |rows|
    ensures r.Some? ==> r.value <= k && rows[r.value].stamp == id
    decreases k
  {
    if rows[k].stamp == id then Some(k)
    else if links[k].None? then None
    else FindRow(rows, links, links[k].value, id)
  }

  /** The outcome of replaying the first `m` rows: each row in turn, as
      `ReplayRow` says, until one of them stops the load. */
  function Replay(rows: seq<MemberRow>, m: nat): (r: Replayed)
    requires m <= |rows|
    ensures r.Built? ==> |r.links| == m && Backward(r.links)
    decreases m
  {
    if m == 0 then Built([])
    else
      var prev := Replay(rows, m - 1);
      if !prev.Built? then prev else ReplayRow(rows, m - 1, prev.links)
  }

  /** Row `k`, once the rows before it are linked by `links`. A row whose
      class ordinal names no class fails; a row whose sponsor stamp is zero
      starts a root; any other row is linked to the row that the search
      from the row before it finds, and the load gives up when there is no
      row before it or the search finds nothing. */
  function ReplayRow(rows: seq<MemberRow>, k: nat, links: seq<Option<nat>>): (r: Replayed)
    requires k < |rows| && |links| == k && Backward(links)
    ensures r.Built? ==> |r.links| == k + 1 && r.links[..k] == links && Backward(r.links)
  {
    var row := rows[k];
    if !(0 <= row.classOrdinal < 3) then Crashed
    else if row.sponsorStamp == 0 then Built(links + [None])
    else if k == 0 then Aborted
    else
      var found := FindRow(rows, links, k - 1, row.sponsorStamp);
      if found.None? then Aborted
      else if rows[found.value].classOrdinal != ClassOrdinal(Abo) then Crashed
      else Built(links + [found])
  }

  /** What a successful replay links: every row names a class, a row is a
      root exactly when its sponsor stamp is zero, and any other row is
      linked to an earlier ABO row carrying its sponsor stamp. */
  lemma {:induction false} ReplayLinks(rows: seq<MemberRow>, m: nat)
    requires m <= |rows| && Replay(rows, m).Built?
    ensures var links := Replay(rows, m).links;
      forall k :: 0 <= k < m ==> RowLinked(rows, k, links[k])
    decreases m
  {
    if m > 0 {
      ReplayLinks(rows, m - 1);
      var prev := Replay(rows, m - 1).links;
      var links := Replay(rows, m).links;
      assert links == ReplayRow(rows, m - 1, prev).links;
      RowLink(rows, m - 1, prev);
      assert links[..m - 1] == prev;
      forall k | 0 <= k < m - 1
        ensures links[k] == prev[k]
      {
        assert links[..m - 1][k] == links[k];
      }
    }
  }

  /** Row `k` as a replayed row: its class ordinal is one of the three, it
      is linked exactly when it names a sponsor, and then to an earlier row
      of an ABO with that stamp. */
  ghost predicate RowLinked(rows: seq<MemberRow>, k: nat, link: Option<nat>)
    requires k < |rows|
  {
    && 0 <= rows[k].classOrdinal < 3
    && (link.None? <==> rows[k].sponsorStamp == 0)
    && (link.Some? ==> link.value < k && rows[link.value].stamp == rows[k].sponsorStamp
                       && rows[link.value].classOrdinal == ClassOrdinal(Abo))
  }

  /** The row `ReplayRow` adds is linked as `RowLinked` says. */
  lemma RowLink(rows: seq<MemberRow>, k: nat, links: seq<Option<nat>>)
    requires k < |rows| && |links| == k && Backward(links) && ReplayRow(rows, k, links).Built?
    ensures RowLinked(rows, k, ReplayRow(rows, k, links).links[k])
  {
  }


  /** A first row that names a class but has a sponsor makes the load give
      up: there is no previous member to search from. */
  lemma FirstRowAborts(rows: seq<MemberRow>)
    requires |rows| > 0 && 0 <= rows[0].classOrdinal < 3 && rows[0].sponsorStamp != 0
    ensures Replay(rows, |rows|) == Aborted
  {
    StoppedStays(rows, 1, |rows|);
  }

  /** Once the replay has stopped, the later rows are never looked at. */
  lemma {:induction false} StoppedStays(rows: seq<MemberRow>, m: nat, n: nat)
    requires m <= n <= |rows| && !Replay(rows, m).Built?
    ensures Replay(rows, n) == Replay(rows, m)
    decreases n
  {
    if n > m {
      StoppedStays(rows, m, n - 1);
    }
  }

  /** The roots among the first rows, as the nodes `n0 + k` they become. */
  function RootsAt(links: seq<Option<nat>>, n0: nat): (r: seq<Node>)
    ensures |r| <= |links|
  {
    if links == [] then []
    else
      var k := |links| - 1;
      RootsAt(links[..k], n0) + (if links[k].None? then [n0 + k] else [])
  }

  /** A prefix of a prefix is a prefix. */
  lemma PrefixTrans<T>(a: seq<T>, b: seq<T>, c: seq<T>)
    requires a <= b && b <= c
    ensures a <= c
  {
    assert c[..|a|] == b[..|a|];
  }

  /** The roots are exactly the nodes of the rows without a sponsor, in
      the order of the rows. */
  lemma {:induction false} RootsAtMembers(links: seq<Option<nat>>, n0: nat)
    ensures forall n :: n in RootsAt(links, n0) <==> n0 <= n < n0 + |links| && links[n - n0].None?
    ensures forall i, j :: 0 <= i < j < |RootsAt(links, n0)| ==> RootsAt(links, n0)[i] < RootsAt(links, n0)[j]
  {
    if links != [] {
      var k := |links| - 1;
      RootsAtMembers(links[..k], n0);
      forall i | 0 <= i < k
        ensures links[..k][i] == links[i]
      {
      }
      var a := RootsAt(links[..k], n0);
      forall i | 0 <= i < |a|
        ensures a[i] < n0 + k
      {
        assert a[i] in a;
      }
    }
  }

  /** One more row adds its node to the roots exactly when it has no link. */
  lemma RootsAtSnoc(links: seq<Option<nat>>, x: Option<nat>, n0: nat, links2: seq<Option<nat>>, n: nat, roots: seq<Node>, roots2: seq<Node>)
    requires links2 == links + [x] && n == n0 + |links| && roots == RootsAt(links, n0)
    requires roots2 == if x.None? then roots + [n] else roots
    ensures roots2 == RootsAt(links2, n0)
  {
    assert (links + [x])[..|links|] == links;
  }

  /** The nodes `f[k]` stand for the rows `k` linked by `links`: same stamp,
      and a parent exactly when the row has a link, namely the node of the
      linked row. */
  ghost predicate Mirror(parent: seq<Option<Node>>, member: seq<Member>, rows: seq<MemberRow>, links: seq<Option<nat>>, f: seq<Node>)
  {
    && |links| <= |f| && |links| <= |rows| && |member| == |parent|
    && forall k :: 0 <= k < |links| ==>
      && f[k] < |parent|
      && member[f[k]].stamp == rows[k].stamp && ClassOrdinal(member[f[k]].kind) == rows[k].classOrdinal
      && (links[k].None? <==> parent[f[k]].None?)
      && (links[k].Some? ==> links[k].value < |f| && parent[f[k]] == Some(f[links[k].value]))
  }

  /** On mirrored nodes, `findSponsorByID` finds the node of the row that
      `FindRow` finds, and nothing when it finds nothing. */
  lemma {:induction false} FindMirror(parent: seq<Option<Node>>, member: seq<Member>, rows: seq<MemberRow>, links: seq<Option<nat>>, f: seq<Node>, k: nat, id: int)
    requires Ordered(parent) && AboSponsors(parent, member) && Backward(links)
    requires Mirror(parent, member, rows, links, f) && k < |links|
    ensures SponsorsUp(parent, member, f[k])
    ensures var r := FindRow(rows, links, k, id);
      FindSponsorById(parent, member, f[k], id) == if r.Some? then Some(f[r.value]) else None
    decreases k
  {
    SponsoredUp(parent, member, f[k]);
    if rows[k].stamp != id && links[k].Some? {
      FindMirror(parent, member, rows, links, f, links[k].value, id);
    }
  }

  // ---------------------------------------------------------------------------
  // Saving and replaying again

  /** Where every sponsor is an ABO, every listing can be written out. */
  lemma SponsoredRows(parent: seq<Option<Node>>, member: seq<Member>, ns: seq<Node>)
    requires AboSponsors(parent, member) && forall k :: 0 <= k < |ns| ==> ns[k] < |parent|
    ensures AboParents(parent, member, ns)
  {
  }

  /** Writing one more node appends the rows of its whole subtree. */
  lemma SavedStep(parent: seq<Option<Node>>, children: seq<seq<Node>>, member: seq<Member>, personal: seq<real>,
                  nodes: seq<Node>, i: nat)
    requires Downward(children) && |children| == |parent| && |personal| == |parent| && AboSponsors(parent, member)
    requires i < |nodes| && forall k :: 0 <= k < |nodes| ==> nodes[k] < |parent|
    ensures var ex := AllOpen(|children|);
      && AboParents(parent, member, Flatten(children, ex, nodes[..i], -1))
      && AboParents(parent, member, Subtree(children, nodes[i]))
      && AboParents(parent, member, Flatten(children, ex, nodes[..i + 1], -1))
      && RowsOf(parent, member, personal, Flatten(children, ex, nodes[..i + 1], -1))
         == RowsOf(parent, member, personal, Flatten(children, ex, nodes[..i], -1))
            + RowsOf(parent, member, personal, Subtree(children, nodes[i]))
  {
    var ex := AllOpen(|children|);
    var done, next := Flatten(children, ex, nodes[..i], -1), Subtree(children, nodes[i]);
    var below := Below(children, ex, nodes[i]);
    FlattenSnoc(children, ex, nodes, -1, i);
    SubtreeBelow(children, nodes[i]);
    ConcatAssoc(done, [nodes[i]], below);
    SponsoredRows(parent, member, done);
    SponsoredRows(parent, member, next);
    RowsOfConcat(parent, member, personal, done, next);
  }

  /** `writeNetworkEntries`: the rows of the subtrees of `nodes`, one after
      the other, each in the pre-order `addUpContentValues` lists it in;
      these are the rows the table receives, in insertion order. */
  method WriteNetworkEntries(net: Network, nodes: seq<Node>) returns (table: seq<MemberRow>)
    requires net.Valid() && net.Sponsored() && forall k :: 0 <= k < |nodes| ==> nodes[k] < |net.parent|
    ensures AboParents(net.parent, net.member, Flatten(net.children, AllOpen(|net.children|), nodes, -1))
    ensures table == RowsOf(net.parent, net.member, net.personal, Flatten(net.children, AllOpen(|net.children|), nodes, -1))
  {
    ghost var ex := AllOpen(|net.children|);
    table := [];
    var i := 0;
    assert Flatten(net.children, ex, nodes[..0], -1) == [];
    while i < |nodes|
      invariant 0 <= i <= |nodes| && AboParents(net.parent, net.member, Flatten(net.children, ex, nodes[..i], -1))
      invariant table == RowsOf(net.parent, net.member, net.personal, Flatten(net.children, ex, nodes[..i], -1))
    {
      table := WriteTree(net, nodes, i, table);
      i := i + 1;
    }
    assert nodes[..i] == nodes;
  }

  /** One turn of the loop of `writeNetworkEntries`: the rows of the whole
      tree of `nodes[i]` are appended to those written so far. */
  method WriteTree(net: Network, nodes: seq<Node>, i: nat, table: seq<MemberRow>) returns (table': seq<MemberRow>)
    requires net.Valid() && net.Sponsored() && forall k :: 0 <= k < |nodes| ==> nodes[k] < |net.parent|
    requires i < |nodes|
    requires table == RowsOf(net.parent, net.member, net.personal, Flatten(net.children, AllOpen(|net.children|), nodes[..i], -1))
    ensures AboParents(net.parent, net.member, Flatten(net.children, AllOpen(|net.children|), nodes[..i + 1], -1))
    ensures table' == RowsOf(net.parent, net.member, net.personal, Flatten(net.children, AllOpen(|net.children|), nodes[..i + 1], -1))
  {
    SavedStep(net.parent, net.children, net.member, net.personal, nodes, i);
    table' := AddUpContentValues(net, nodes[i], table);
  }

  /** No two members share a stamp. */
  ghost predicate DistinctStamps(member: seq<Member>)
  {
    forall x, y :: 0 <= x < |member| && 0 <= y < |member| && x != y ==> member[x].stamp != member[y].stamp
  }

  /** No member has the stamp 0, which the rows reserve for "no sponsor". */
  ghost predicate NonzeroStamps(member: seq<Member>)
  {
    forall x :: 0 <= x < |member| ==> member[x].stamp != 0
  }

  /** The links a listing `s` of nodes stands for: the position in `s` of
      each node's parent, none for a node whose parent is not listed. */
  function LinksOf(parent: seq<Option<Node>>, s: seq<Node>): (r: seq<Option<nat>>)
    requires forall i :: 0 <= i < |s| ==> s[i] < |parent|
    ensures |r| == |s|
  {
    seq(|s|, k requires 0 <= k < |s| =>
      if parent[s[k]].None? then None
      else
        var i := IndexOf(s, parent[s[k]].value);
        if i < 0 then None else Some(i))
  }

  /** In a pre-order listing of whole trees a node with a parent comes
      after that parent, whose first position its link holds, and right
      after a node on the parent's subtree. */
  lemma PreOrderParent(parent: seq<Option<Node>>, s: seq<Node>, k: nat)
    requires Ordered(parent) && PreOrder(parent, s, None) && k < |s| && parent[s[k]].Some?
    ensures var p := parent[s[k]].value;
      && 0 < k && 0 <= IndexOf(s, p) < k && IsAncestorOrSelf(parent, p, s[k - 1])
      && LinksOf(parent, s)[k] == Some(IndexOf(s, p))
  {
    assert PreOrderAt(parent, s, None, k);
    var p := parent[s[k]].value;
    var i :| 0 <= i < k && s[..k][i] == p;
    assert s[i] == p;
  }

  /** A root's link is empty. */
  lemma RootLink(parent: seq<Option<Node>>, s: seq<Node>, k: nat)
    requires forall i :: 0 <= i < |s| ==> s[i] < |parent|
    requires k < |s| && parent[s[k]].None?
    ensures LinksOf(parent, s)[k] == None
  {
  }

  /** So the links of such a listing point backwards. */
  lemma PreOrderLinks(parent: seq<Option<Node>>, s: seq<Node>)
    requires Ordered(parent) && PreOrder(parent, s, None)
    ensures Backward(LinksOf(parent, s))
  {
    forall k | 0 <= k < |s|
      ensures LinksOf(parent, s)[k].Some? ==> LinksOf(parent, s)[k].value < k
    {
      if parent[s[k]].Some? {
        PreOrderParent(parent, s, k);
      } else {
        RootLink(parent, s, k);
      }
    }
  }

  /** On the rows of a pre-order listing, the search `findSponsorByID` makes
      from row `j` for the stamp of an ancestor `a` of its node finds the row
      of `a`: the links walk up the chain, and no other node on it carries
      that stamp. */
  lemma {:induction false} FindChain(parent: seq<Option<Node>>, member: seq<Member>, personal: seq<real>,
                                     s: seq<Node>, links: seq<Option<nat>>, j: nat, a: Node)
    requires Ordered(parent) && |member| == |parent| && |personal| == |parent| && DistinctStamps(member)
    requires PreOrder(parent, s, None) && NoDup(s) && AboParents(parent, member, s)
    requires j < |links| <= |s| && links == LinksOf(parent, s)[..|links|]
    requires a < |parent| && IsAncestorOrSelf(parent, a, s[j])
    ensures Backward(links)
    ensures FindRow(RowsOf(parent, member, personal, s), links, j, member[a].stamp) == Some(IndexOf(s, a))
    decreases j
  {
    PreOrderLinks(parent, s);
    RowsOfAt(parent, member, personal, s, j);
    var i := IndexOf(s, a);
    if s[j] == a {
      assert a in s;
    } else {
      PreOrderParent(parent, s, j);
      var l := IndexOf(s, parent[s[j]].value);
      assert links[j] == Some(l);
      FindChain(parent, member, personal, s, links, l, a);
    }
  }

  /** Replaying the rows of a pre-order listing of whole trees, with
      distinct nonzero stamps and ABO sponsors, links each row to the row of
      its node's parent, through every prefix. */
  lemma {:induction false} ReplayListing(parent: seq<Option<Node>>, member: seq<Member>, personal: seq<real>, s: seq<Node>, m: nat)
    requires Ordered(parent) && AboSponsors(parent, member) && |personal| == |parent|
    requires DistinctStamps(member) && NonzeroStamps(member)
    requires PreOrder(parent, s, None) && NoDup(s) && AboParents(parent, member, s) && m <= |s|
    ensures Replay(RowsOf(parent, member, personal, s), m) == Built(LinksOf(parent, s)[..m])
    decreases m
  {
    if m == 0 {
      assert LinksOf(parent, s)[..0] == [];
    } else {
      var rows, all, k := RowsOf(parent, member, personal, s), LinksOf(parent, s), m - 1;
      ReplayListing(parent, member, personal, s, k);
      RowReplayed(parent, member, personal, s, k);
      assert Replay(rows, m) == ReplayRow(rows, k, all[..k]);
    }
  }

  /** Row `k` of such a listing is linked to the row of its node's parent,
      or starts a root when the node has none. */
  lemma RowReplayed(parent: seq<Option<Node>>, member: seq<Member>, personal: seq<real>, s: seq<Node>, k: nat)
    requires Ordered(parent) && AboSponsors(parent, member) && |personal| == |parent|
    requires DistinctStamps(member) && NonzeroStamps(member)
    requires PreOrder(parent, s, None) && NoDup(s) && AboParents(parent, member, s) && k < |s|
    ensures Backward(LinksOf(parent, s)[..k])
    ensures ReplayRow(RowsOf(parent, member, personal, s), k, LinksOf(parent, s)[..k]) == Built(LinksOf(parent, s)[..k + 1])
  {
    if parent[s[k]].Some? {
      ChildRowReplayed(parent, member, personal, s, k);
    } else {
      RootRowReplayed(parent, member, personal, s, k);
    }
  }

  /** `RowReplayed` for a row whose node has a parent. */
  lemma ChildRowReplayed(parent: seq<Option<Node>>, member: seq<Member>, personal: seq<real>, s: seq<Node>, k: nat)
    requires Ordered(parent) && AboSponsors(parent, member) && |personal| == |parent|
    requires DistinctStamps(member) && NonzeroStamps(member)
    requires PreOrder(parent, s, None) && NoDup(s) && AboParents(parent, member, s) && k < |s|
    requires parent[s[k]].Some?
    ensures Backward(LinksOf(parent, s)[..k])
    ensures ReplayRow(RowsOf(parent, member, personal, s), k, LinksOf(parent, s)[..k]) == Built(LinksOf(parent, s)[..k + 1])
  {
    var i := ChildRowFound(parent, member, personal, s, k);
    RowsOfAt(parent, member, personal, s, k);
    LinkedRowAt(RowsOf(parent, member, personal, s), LinksOf(parent, s), k, i);
  }

  /** `LinkedRow`, read on the prefix of a whole list of links. */
  lemma LinkedRowAt(rows: seq<MemberRow>, all: seq<Option<nat>>, k: nat, i: nat)
    requires k < |rows| && k < |all| && all[k] == Some(i) && Backward(all[..k]) && 0 < k
    requires 0 <= rows[k].classOrdinal < 3 && rows[k].sponsorStamp != 0
    requires FindRow(rows, all[..k], k - 1, rows[k].sponsorStamp) == Some(i)
    requires rows[i].classOrdinal == ClassOrdinal(Abo)
    ensures ReplayRow(rows, k, all[..k]) == Built(all[..k + 1])
  {
    LinkedRow(rows, all[..k], k, i);
    assert all[..k + 1] == all[..k] + [Some(i)];
  }

  /** `RowReplayed` for the row of a root. */
  lemma RootRowReplayed(parent: seq<Option<Node>>, member: seq<Member>, personal: seq<real>, s: seq<Node>, k: nat)
    requires Ordered(parent) && AboSponsors(parent, member) && |personal| == |parent|
    requires DistinctStamps(member) && NonzeroStamps(member)
    requires PreOrder(parent, s, None) && NoDup(s) && AboParents(parent, member, s) && k < |s|
    requires parent[s[k]].None?
    ensures Backward(LinksOf(parent, s)[..k])
    ensures ReplayRow(RowsOf(parent, member, personal, s), k, LinksOf(parent, s)[..k]) == Built(LinksOf(parent, s)[..k + 1])
  {
    PreOrderLinks(parent, s);
    RowsOfAt(parent, member, personal, s, k);
    RootLink(parent, s, k);
    RootRowAt(RowsOf(parent, member, personal, s), LinksOf(parent, s), k);
  }

  /** A row with a known class and no sponsor stamp replays as a root, read
      on the prefix of a whole list of links. */
  lemma RootRowAt(rows: seq<MemberRow>, all: seq<Option<nat>>, k: nat)
    requires k < |rows| && k < |all| && all[k] == None && Backward(all)
    requires 0 <= rows[k].classOrdinal < 3 && rows[k].sponsorStamp == 0
    ensures Backward(all[..k])
    ensures ReplayRow(rows, k, all[..k]) == Built(all[..k + 1])
  {
    assert forall j :: 0 <= j < k ==> all[..k][j] == all[j];
    assert all[..k + 1] == all[..k] + [None];
  }

  /** Row `k` of such a listing whose node has a parent names a nonzero
      sponsor stamp, and the search from the row before it finds the row of
      that parent, an ABO's row, which the link of row `k` holds. */
  lemma ChildRowFound(parent: seq<Option<Node>>, member: seq<Member>, personal: seq<real>, s: seq<Node>, k: nat) returns (i: nat)
    requires Ordered(parent) && AboSponsors(parent, member) && |personal| == |parent|
    requires DistinctStamps(member) && NonzeroStamps(member)
    requires PreOrder(parent, s, None) && NoDup(s) && AboParents(parent, member, s) && k < |s|
    requires parent[s[k]].Some?
    ensures 0 < k && i < k && Backward(LinksOf(parent, s)[..k]) && LinksOf(parent, s)[k] == Some(i)
    ensures RowsOf(parent, member, personal, s)[k].sponsorStamp != 0
    ensures FindRow(RowsOf(parent, member, personal, s), LinksOf(parent, s)[..k], k - 1,
                    RowsOf(parent, member, personal, s)[k].sponsorStamp) == Some(i)
    ensures RowsOf(parent, member, personal, s)[i].classOrdinal == ClassOrdinal(Abo)
  {
    var p := parent[s[k]].value;
    PreOrderLinks(parent, s);
    PreOrderParent(parent, s, k);
    i := IndexOf(s, p);
    RowsOfAt(parent, member, personal, s, k);
    FindChain(parent, member, personal, s, LinksOf(parent, s)[..k], k - 1, p);
    RowsOfAt(parent, member, personal, s, i);
  }

  /** A row whose class is known and whose search finds an ABO's row is
      linked to it. */
  lemma LinkedRow(rows: seq<MemberRow>, links: seq<Option<nat>>, k: nat, i: nat)
    requires k < |rows| && |links| == k && Backward(links) && 0 < k
    requires 0 <= rows[k].classOrdinal < 3 && rows[k].sponsorStamp != 0
    requires FindRow(rows, links, k - 1, rows[k].sponsorStamp) == Some(i)
    requires rows[i].classOrdinal == ClassOrdinal(Abo)
    ensures ReplayRow(rows, k, links) == Built(links + [Some(i)])
  {
  }

  /** The round trip: writing out whole trees whose stamps are distinct and
      nonzero and whose sponsors are ABOs, then replaying the rows, succeeds
      and links every row to the row of its node's parent; the rows without
      a sponsor are exactly those of the roots written. */
  lemma ReplayRoundTrip(parent: seq<Option<Node>>, children: seq<seq<Node>>, member: seq<Member>, personal: seq<real>, roots: seq<Node>)
    requires WellFormed(parent, children) && Linked(parent, children) && AboSponsors(parent, member) && |personal| == |parent|
    requires Roots(parent, roots) && DistinctStamps(member) && NonzeroStamps(member)
    ensures var s := Flatten(children, AllOpen(|children|), roots, -1);
      && AboParents(parent, member, s)
      && Replay(RowsOf(parent, member, personal, s), |s|) == Built(LinksOf(parent, s))
      && (forall k :: 0 <= k < |s| ==> (LinksOf(parent, s)[k].None? <==> s[k] in roots))
      && (forall k :: 0 <= k < |s| && LinksOf(parent, s)[k].Some? ==>
            LinksOf(parent, s)[k].value < k && parent[s[k]] == Some(s[LinksOf(parent, s)[k].value]))
      && (forall i :: 0 <= i < |s| ==> LinkedNodes(s, LinksOf(parent, s), i) == children[s[i]])
  {
    RoundTripReplay(parent, children, member, personal, roots);
    RoundTripLinks(parent, children, roots);
    RoundTripChildren(parent, children, roots);
  }

  /** The rows of whole trees written out replay without a failure, to
      the links the listing determines. */
  lemma RoundTripReplay(parent: seq<Option<Node>>, children: seq<seq<Node>>, member: seq<Member>, personal: seq<real>, roots: seq<Node>)
    requires WellFormed(parent, children) && Linked(parent, children) && AboSponsors(parent, member) && |personal| == |parent|
    requires Roots(parent, roots) && DistinctStamps(member) && NonzeroStamps(member)
    ensures var s := Flatten(children, AllOpen(|children|), roots, -1);
      && AboParents(parent, member, s)
      && Replay(RowsOf(parent, member, personal, s), |s|) == Built(LinksOf(parent, s))
  {
    var ex := AllOpen(|children|);
    var s := Flatten(children, ex, roots, -1);
    SponsoredRows(parent, member, s);
    FlattenNoDup(parent, children, ex, roots, -1, None);
    FlattenPreOrder(parent, children, roots, -1, None);
    ReplayListing(parent, member, personal, s, |s|);
    assert LinksOf(parent, s)[..|s|] == LinksOf(parent, s);
  }

  /** In the whole trees written out, exactly the roots' rows have no link,
      and every other row links back to the row of its node's parent. */
  lemma RoundTripLinks(parent: seq<Option<Node>>, children: seq<seq<Node>>, roots: seq<Node>)
    requires WellFormed(parent, children) && Linked(parent, children) && Roots(parent, roots)
    ensures var s := Flatten(children, AllOpen(|children|), roots, -1);
      && (forall k :: 0 <= k < |s| ==> (LinksOf(parent, s)[k].None? <==> s[k] in roots))
      && (forall k :: 0 <= k < |s| && LinksOf(parent, s)[k].Some? ==>
            LinksOf(parent, s)[k].value < k && parent[s[k]] == Some(s[LinksOf(parent, s)[k].value]))
  {
    var ex := AllOpen(|children|);
    var s := Flatten(children, ex, roots, -1);
    FlattenPreOrder(parent, children, roots, -1, None);
    forall k | 0 <= k < |s|
      ensures LinksOf(parent, s)[k].None? <==> s[k] in roots
      ensures LinksOf(parent, s)[k].Some? ==>
        LinksOf(parent, s)[k].value < k && parent[s[k]] == Some(s[LinksOf(parent, s)[k].value])
    {
      if parent[s[k]].Some? {
        PreOrderParent(parent, s, k);
        assert s[k] !in roots;
      } else {
        RootLink(parent, s, k);
        FlattenDescends(parent, children, ex, roots, -1, s[k]);
      }
    }
  }

  /** Read through the links of the rows, the whole trees written out give
      every node its own children, in child-list order. */
  lemma RoundTripChildren(parent: seq<Option<Node>>, children: seq<seq<Node>>, roots: seq<Node>)
    requires WellFormed(parent, children) && Roots(parent, roots)
    requires forall k :: 0 <= k < |roots| ==> roots[k] < |children|
    ensures var s := Flatten(children, AllOpen(|children|), roots, -1);
      forall i :: 0 <= i < |s| ==> LinkedNodes(s, LinksOf(parent, s), i) == children[s[i]]
  {
    var s := Flatten(children, AllOpen(|children|), roots, -1);
    FlattenNoDup(parent, children, AllOpen(|children|), roots, -1, None);
    assert s[..|s|] == s;
    forall i | 0 <= i < |s|
      ensures LinkedNodes(s, LinksOf(parent, s), i) == children[s[i]]
    {
      forall k | 0 <= k < |s|
        ensures LinksOf(parent, s)[k] == Some(i) <==> parent[s[k]] == Some(s[i])
      {
        LinkTo(parent, s, i, k);
      }
      LinkedChildren(parent, s, LinksOf(parent, s), i);
      assert s[i] in s;
      FlattenChildren(parent, children, roots, -1, None, s[i]);
    }
  }

  /** The node of row `i`, among new nodes from `n0`, has for children the
      nodes of the rows of `cs`, in the order of `cs`. */
  ghost predicate RebuiltList(kids: seq<seq<Node>>, n0: nat, s: seq<Node>, i: nat, cs: seq<Node>)
  {
    && n0 + i < |kids| && |kids[n0 + i]| == |cs|
    && forall m :: 0 <= m < |cs| ==> kids[n0 + i][m] == n0 + IndexOf(s, cs[m])
  }

  /** Replaying the rows of whole trees into a network whose new nodes
      start at `n0` gives the node of row `i` for children, in order, the
      new nodes of the rows of the children of the original node `s[i]`. */
  lemma RebuiltChildren(parent: seq<Option<Node>>, children: seq<seq<Node>>, roots: seq<Node>, kids: seq<seq<Node>>, n0: nat)
    requires WellFormed(parent, children) && Roots(parent, roots)
    requires forall k :: 0 <= k < |roots| ==> roots[k] < |children|
    requires var s := Flatten(children, AllOpen(|children|), roots, -1);
      ChildLists(kids, LinksOf(parent, s), Handles(n0, |s|))
    ensures var s := Flatten(children, AllOpen(|children|), roots, -1);
      forall i :: 0 <= i < |s| ==> RebuiltList(kids, n0, s, i, children[s[i]])
  {
    var s := Flatten(children, AllOpen(|children|), roots, -1);
    var links := LinksOf(parent, s);
    RoundTripChildren(parent, children, roots);
    FlattenNoDup(parent, children, AllOpen(|children|), roots, -1, None);
    assert NoDup(s) && |links| == |s| && ChildLists(kids, links, Handles(n0, |s|));
    forall i | 0 <= i < |s|
      ensures RebuiltList(kids, n0, s, i, children[s[i]])
    {
      assert LinkedNodes(s, links, i) == children[s[i]];
      ShiftedChildren(s, links, kids, n0, i, children[s[i]]);
    }
  }

  /** Where the rows linked to row `i` hold the listed nodes `cs`, the node
      of row `i` has for children the handles of the rows of `cs`. */
  lemma ShiftedChildren(s: seq<Node>, links: seq<Option<nat>>, kids: seq<seq<Node>>, n0: nat, i: nat, cs: seq<Node>)
    requires NoDup(s) && |links| == |s| && i < |s|
    requires ChildLists(kids, links, Handles(n0, |s|)) && LinkedNodes(s, links, i) == cs
    ensures RebuiltList(kids, n0, s, i, cs)
  {
    assert Handles(n0, |s|)[i] == n0 + i;
    LinkedNodesShifted(s, links, i, n0);
  }

  /** The same rows linked to row `i`, read as the handles from `n0` or as
      the listed nodes: each handle is `n0` plus the position of the node. */
  lemma {:induction false} LinkedNodesShifted(s: seq<Node>, links: seq<Option<nat>>, i: nat, n0: nat)
    requires NoDup(s) && |links| <= |s|
    ensures var r, q := LinkedNodes(Handles(n0, |s|), links, i), LinkedNodes(s, links, i);
      |r| == |q| && forall m :: 0 <= m < |r| ==> r[m] == n0 + IndexOf(s, q[m])
  {
    if links != [] {
      var k := |links| - 1;
      var f := Handles(n0, |s|);
      LinkedNodesShifted(s, links[..k], i, n0);
      var r0, q0 := LinkedNodes(f, links[..k], i), LinkedNodes(s, links[..k], i);
      if links[k] == Some(i) {
        assert f[k] == n0 + k;
        assert s[k] in s;
        assert IndexOf(s, s[k]) == k;
        var r, q := r0 + [f[k]], q0 + [s[k]];
        assert LinkedNodes(f, links, i) == r && LinkedNodes(s, links, i) == q;
        forall m | 0 <= m < |r|
          ensures r[m] == n0 + IndexOf(s, q[m])
        {
          if m < |r0| {
            assert r[m] == r0[m] && q[m] == q0[m];
          }
        }
      } else {
        assert LinkedNodes(f, links, i) == r0 && LinkedNodes(s, links, i) == q0;
      }
    }
  }

  /** When the rows are linked to row `i` exactly where the parent of
      their node is the node of row `i`, the rows linked to it hold the
      listed children of that node, in listing order. */
  lemma {:induction false} LinkedChildren(parent: seq<Option<Node>>, s: seq<Node>, links: seq<Option<nat>>, i: nat)
    requires forall k :: 0 <= k < |s| ==> s[k] < |parent|
    requires i < |s| && |links| <= |s|
    requires forall k :: 0 <= k < |links| ==> (links[k] == Some(i) <==> parent[s[k]] == Some(s[i]))
    ensures LinkedNodes(s, links, i) == ChildrenIn(parent, s[..|links|], s[i])
  {
    if links != [] {
      var k := |links| - 1;
      LinkedChildren(parent, s, links[..k], i);
      assert s[..k + 1] == s[..k] + [s[k]];
      ChildrenInSnoc(parent, s[..k], s[k], s[i]);
    }
  }

  /** In a listing without repeats, row `k` is linked to row `i` exactly
      when the node of row `i` is the parent of the node of row `k`. */
  lemma LinkTo(parent: seq<Option<Node>>, s: seq<Node>, i: nat, k: nat)
    requires forall j :: 0 <= j < |s| ==> s[j] < |parent|
    requires NoDup(s) && i < |s| && k < |s|
    ensures LinksOf(parent, s)[k] == Some(i) <==> parent[s[k]] == Some(s[i])
  {
    if parent[s[k]] == Some(s[i]) {
      assert s[i] in s;
      assert IndexOf(s, s[i]) == i;
    }
  }

  /** The result of a load: what the loader returns, or an exception that
      leaves it. */
  datatype Load<T> = Returned(value: T) | Thrown

  /** The replay loop of `readNetworkEntries`: each row becomes a new member
      (`values2member`); a row with sponsor stamp zero is a new root, any
      other row is attached as the last child of the member found from the
      previous row's member (`findSponsorByID`, `addMemberNode`). The
      outcome is the one `Replay` describes; on success the new nodes mirror
      the rows, carry their names and personal volumes, and have for
      children the nodes of the rows linked to them in row order, and the
      roots are returned in row order; on failure no roots are returned.
      Either way the nodes that were there keep their child lists, groups
      and counts, every per-node field only grows, every parent stays an
      ABO and a network whose groups rolled up still does. */
  method ReplayRows(net: Network, rows: seq<MemberRow>) returns (outcome: Replayed, roots: seq<Node>)
    requires net.Valid() && net.Sponsored()
    modifies net
    ensures net.Valid() && net.Sponsored()
    ensures old(net.Consistent()) ==> net.Consistent()
    ensures outcome == Replay(rows, |rows|)
    ensures !outcome.Built? ==> roots == []
    ensures old(net.parent) <= net.parent && old(net.member) <= net.member && old(net.personal) <= net.personal
    ensures old(net.base) <= net.base && old(net.isExpand) <= net.isExpand && old(net.level) <= net.level
    ensures old(net.children) <= net.children && old(net.group) <= net.group && old(net.nodeCount) <= net.nodeCount
    ensures outcome.Built? ==> |net.parent| == old(|net.parent|) + |rows|
    ensures outcome.Built? ==> Mirror(net.parent, net.member, rows, outcome.links, Handles(old(|net.parent|), |rows|))
    ensures outcome.Built? ==> Carried(net.member, net.personal, rows, Handles(old(|net.parent|), |rows|), |rows|)
    ensures outcome.Built? ==> ChildLists(net.children, outcome.links, Handles(old(|net.parent|), |rows|))
    ensures outcome.Built? ==> roots == RootsAt(outcome.links, old(|net.parent|))
  {
    ghost var n0 := |net.parent|;
    ghost var f := Handles(n0, |rows|);
    ghost var wasConsistent := net.Consistent();
    ghost var parent00 := net.parent;
    ghost var was := BeforeOf(net);
    outcome := Built([]);
    roots := [];
    var k := 0;
    while k < |rows|
      invariant k <= |rows| && outcome == Replay(rows, k) && outcome.Built?
      invariant Replaying(net, rows, k, outcome.links, roots, f, n0, parent00)
      invariant Kept(BeforeOf(net), was, n0) && Carried(net.member, net.personal, rows, f, k)
      invariant ClosedFrom(net.parent, n0) && ChildLists(net.children, outcome.links, f)
      invariant wasConsistent ==> net.Consistent()
    {
      var next, roots' := ReplayRoots(net, rows, k, outcome.links, roots, f, n0, parent00, was);
      if !next.Built? {
        return next, [];
      }
      roots := roots';
      outcome := next;
      k := k + 1;
    }
  }

  /** What the replay loop keeps after `k` rows: the network is well formed,
      the rows so far have become the nodes from `n0` on, linked as `links`
      says, and `roots` lists those without a sponsor. */
  ghost predicate Replaying(net: Network, rows: seq<MemberRow>, k: nat, links: seq<Option<nat>>, roots: seq<Node>,
                           f: seq<Node>, n0: nat, parent00: seq<Option<Node>>)
    reads net
  {
    k <= |rows| && net.Valid() && net.Sponsored()
    && Replay(rows, k) == Built(links) && |links| == k && f == Handles(n0, |rows|)
    && |net.parent| == n0 + k && parent00 <= net.parent
    && Mirror(net.parent, net.member, rows, links, f) && roots == RootsAt(links, n0)
  }

  /** One turn of the replay loop: row `k` is replayed, and the new node is
      added to the roots when it has no sponsor. */
  method ReplayRoots(net: Network, rows: seq<MemberRow>, k: nat, links: seq<Option<nat>>, roots: seq<Node>,
                     ghost f: seq<Node>, ghost n0: nat, ghost parent00: seq<Option<Node>>, ghost was: Before)
    returns (outcome: Replayed, roots': seq<Node>)
    requires k < |rows| && Replaying(net, rows, k, links, roots, f, n0, parent00)
    requires Kept(BeforeOf(net), was, n0) && Carried(net.member, net.personal, rows, f, k)
    requires ClosedFrom(net.parent, n0) && ChildLists(net.children, links, f)
    modifies net
    ensures net.Valid() && net.Sponsored()
    ensures old(net.Consistent()) ==> net.Consistent()
    ensures outcome == Replay(rows, k + 1)
    ensures !outcome.Built? ==> outcome == Replay(rows, |rows|)
    ensures Kept(BeforeOf(net), was, n0) && ClosedFrom(net.parent, n0) && parent00 <= net.parent
    ensures outcome.Built? ==> Replaying(net, rows, k + 1, outcome.links, roots', f, n0, parent00)
    ensures outcome.Built? ==> Carried(net.member, net.personal, rows, f, k + 1) && ChildLists(net.children, outcome.links, f)
  {
    ghost var parent1 := net.parent;
    ghost var now := BeforeOf(net);
    var n;
    outcome, n := ReplayStep(net, rows, k, links, f, n0);
    KeptTrans(was, now, BeforeOf(net), n0);
    PrefixTrans(parent00, parent1, net.parent);
    if !outcome.Built? {
      StoppedStays(rows, k + 1, |rows|);
      return outcome, roots;
    }
    roots' := roots;
    if outcome.links[k].None? {
      roots' := roots + [n];
    }
    RootsAtSnoc(links, outcome.links[k], n0, outcome.links, n, roots, roots');
  }

  /** Row `k` becomes node `n`, the next handle, which is then linked as
      the row says. */
  method ReplayStep(net: Network, rows: seq<MemberRow>, k: nat, links: seq<Option<nat>>, ghost f: seq<Node>, ghost from: nat)
    returns (outcome: Replayed, n: Node)
    requires net.Valid() && net.Sponsored() && k < |rows|
    requires from + k == |net.parent| && Replay(rows, k) == Built(links) && f == Handles(from, |rows|)
    requires Mirror(net.parent, net.member, rows, links, f)
    requires ClosedFrom(net.parent, from) && Carried(net.member, net.personal, rows, f, k) && ChildLists(net.children, links, f)
    modifies net
    ensures net.Valid() && net.Sponsored()
    ensures old(net.Consistent()) ==> net.Consistent()
    ensures outcome == Replay(rows, k + 1)
    ensures Kept(BeforeOf(net), old(BeforeOf(net)), from) && ClosedFrom(net.parent, from) && old(net.parent) <= net.parent
    ensures outcome.Built? ==> outcome.links == links + [outcome.links[k]] && n == old(|net.parent|)
    ensures outcome.Built? ==> |net.parent| == old(|net.parent|) + 1
    ensures outcome.Built? ==> Mirror(net.parent, net.member, rows, outcome.links, f)
    ensures outcome.Built? ==> Carried(net.member, net.personal, rows, f, k + 1) && ChildLists(net.children, outcome.links, f)
  {
    var row := rows[k];
    if !(0 <= row.classOrdinal < 3) {
      return Crashed, 0;
    }
    ghost var parent0 := net.parent;
    ghost var b0 := BeforeOf(net);
    var sponsorStamp;
    n, sponsorStamp := MakeRowNode(net, rows, k, links, f, from);
    ghost var b1 := BeforeOf(net);
    outcome := LinkRow(net, rows, k, links, f, from, n, sponsorStamp, parent0);
    KeptTrans(b0, b1, BeforeOf(net), from);
  }

  /** `values2member` for row `k`, whose class ordinal names a class: the
      new node `n`, still detached, extends what the earlier rows built. */
  method MakeRowNode(net: Network, rows: seq<MemberRow>, k: nat, links: seq<Option<nat>>, ghost f: seq<Node>, ghost from: nat)
    returns (n: Node, sponsorStamp: int)
    requires net.Valid() && net.Sponsored() && k < |rows| && 0 <= rows[k].classOrdinal < 3
    requires from + k == |net.parent| && |links| == k && f == Handles(from, |rows|)
    requires Mirror(net.parent, net.member, rows, links, f)
    requires ClosedFrom(net.parent, from) && Carried(net.member, net.personal, rows, f, k) && ChildLists(net.children, links, f)
    modifies net
    ensures net.Valid() && net.Sponsored()
    ensures old(net.Consistent()) ==> net.Consistent()
    ensures n == old(|net.parent|) && net.parent == old(net.parent) + [None] && net.children[n] == []
    ensures net.member[n].stamp == rows[k].stamp && ClassOrdinal(net.member[n].kind) == rows[k].classOrdinal
    ensures sponsorStamp == rows[k].sponsorStamp
    ensures Kept(BeforeOf(net), old(BeforeOf(net)), from) && ClosedFrom(net.parent, from)
    ensures Mirror(net.parent, net.member, rows, links, f)
    ensures Carried(net.member, net.personal, rows, f, k + 1) && ChildLists(net.children, links, f)
  {
    ghost var parent0, member0, personal0, children0 := net.parent, net.member, net.personal, net.children;
    n, sponsorStamp := Values2Member(net, rows[k]);
    MirrorGrown(parent0, member0, net.parent, net.member, rows, links, f);
    CarriedGrown(member0, personal0, net.member[n], net.member, net.personal, rows, f, k);
    ChildListsGrown(children0, net.children, links, f);
    AppendedKept(old(BeforeOf(net)), BeforeOf(net), from);
  }

  /** The rest of the turn: with no sponsor stamp node `n` stays a root;
      otherwise it becomes the last child of the member found from node
      `n - 1`, and the load gives up when there is none. */
  method LinkRow(net: Network, rows: seq<MemberRow>, k: nat, links: seq<Option<nat>>, ghost f: seq<Node>, ghost from: nat, n: Node, sponsorStamp: int,
                 ghost parent0: seq<Option<Node>>)
    returns (outcome: Replayed)
    requires net.Valid() && net.Sponsored() && k < |rows| && 0 <= rows[k].classOrdinal < 3
    requires Replay(rows, k) == Built(links) && sponsorStamp == rows[k].sponsorStamp
    requires net.parent == parent0 + [None] && n == |parent0| && n == from + k && f == Handles(from, |rows|)
    requires net.member[n].stamp == rows[k].stamp && ClassOrdinal(net.member[n].kind) == rows[k].classOrdinal
    requires Mirror(net.parent, net.member, rows, links, f)
    requires ClosedFrom(net.parent, from) && ChildLists(net.children, links, f) && net.children[n] == []
    modifies net`parent, net`children, net`group, net`nodeCount
    ensures net.Valid() && net.Sponsored()
    ensures old(net.Consistent()) ==> net.Consistent()
    ensures outcome == Replay(rows, k + 1)
    ensures |net.parent| == n + 1 && parent0 <= net.parent
    ensures Kept(BeforeOf(net), old(BeforeOf(net)), from) && ClosedFrom(net.parent, from)
    ensures outcome.Built? ==> outcome.links == links + [outcome.links[k]]
    ensures outcome.Built? ==> Mirror(net.parent, net.member, rows, outcome.links, f)
    ensures outcome.Built? ==> ChildLists(net.children, outcome.links, f)
  {
    assert f[k] == n && (0 < k ==> f[k - 1] == n - 1);
    assert Replay(rows, k + 1) == ReplayRow(rows, k, links);
    var sponsor;
    outcome, sponsor := DecideLink(net.parent, net.member, rows, links, f, k, n - 1, sponsorStamp);
    if sponsor.Some? {
      ghost var j := outcome.links[k].value;
      assert outcome.links == links + [Some(j)];
      AttachRow(net, rows, links, f, from, n, j, sponsor.value, parent0);
    } else {
      KeptSame(BeforeOf(net), from);
      if outcome.Built? {
        assert outcome.links == links + [None];
        MirrorRoot(net.parent, net.member, rows, links, f);
        ChildListsRoot(net.children, links, f);
      }
    }
  }

  /** `addMemberNode` for the node `n` of row `|links|`, under the node `s`
      of row `j`: the mirror takes the new link. */
  method AttachRow(net: Network, rows: seq<MemberRow>, links: seq<Option<nat>>, ghost f: seq<Node>, ghost from: nat, n: Node, ghost j: nat, s: Node,
                   ghost parent0: seq<Option<Node>>)
    requires net.Valid() && net.Sponsored() && net.parent == parent0 + [None] && n == |parent0|
    requires Mirror(net.parent, net.member, rows, links, f) && |links| < |f| && |links| < |rows| && j < |links|
    requires f == Handles(from, |rows|) && f[|links|] == n && s == f[j] && s < n && net.member[s].kind == Abo
    requires net.member[n].stamp == rows[|links|].stamp && ClassOrdinal(net.member[n].kind) == rows[|links|].classOrdinal
    requires ClosedFrom(net.parent, from) && Backward(links) && ChildLists(net.children, links, f) && net.children[n] == []
    modifies net`parent, net`children, net`group, net`nodeCount
    ensures net.Valid() && net.Sponsored()
    ensures old(net.Consistent()) ==> net.Consistent()
    ensures |net.parent| == n + 1 && parent0 <= net.parent
    ensures Mirror(net.parent, net.member, rows, links + [Some(j)], f)
    ensures Kept(BeforeOf(net), old(BeforeOf(net)), from) && ClosedFrom(net.parent, from)
    ensures ChildLists(net.children, links + [Some(j)], f)
  {
    ghost var parent1, children1 := net.parent, net.children;
    SponsoredUp(net.parent, net.member, s);
    AddMemberNode(net, s, n);
    UpdateAppended(parent0, None, n, Some(s));
    MirrorAttached(parent1, net.member, net.parent, rows, links, f, j);
    ChildListsAttached(children1, net.children, links, f, from, j);
    GroupsKept(parent1, old(net.group), net.group, from, s, old(net.group[n]));
    CountsKept(net.parent, net.children, old(net.nodeCount), net.nodeCount, from, s);
    assert children1[..from] <= net.children by {
      assert net.children[..from] == children1[..from];
    }
  }

  /** Adding a volume to `s` and its ancestors leaves the groups before
      `from` alone when `s` is not before it. */
  lemma GroupsKept(parent: seq<Option<Node>>, group: seq<real>, group2: seq<real>, from: nat, s: Node, v: real)
    requires Ordered(parent) && ClosedFrom(parent, from) && from <= s < |parent| && |group| == |parent| == |group2|
    requires forall j :: 0 <= j < |group2| ==> group2[j] == group[j] + (if IsAncestorOrSelf(parent, j, s) then v else 0.0)
    ensures group[..from] <= group2
  {
    forall j | 0 <= j < from
      ensures group2[j] == group[j]
    {
      if IsAncestorOrSelf(parent, j, s) {
        AncestorsFrom(parent, from, j, s);
      }
    }
  }

  /** Recounting the tree of `s` leaves the counts before `from` alone when
      `s` is not before it. */
  lemma CountsKept(parent: seq<Option<Node>>, children: seq<seq<Node>>, count: seq<int>, count2: seq<int>, from: nat, s: Node)
    requires Ordered(parent) && Downward(children) && |children| == |parent| && ClosedFrom(parent, from) && from <= s < |parent|
    requires |count| == |count2| == |parent|
    requires forall i :: 0 <= i < |count2| && i !in Subtree(children, Root(parent, s)) ==> count2[i] == count[i]
    ensures count[..from] <= count2
  {
    var r := Root(parent, s);
    AncestorsFrom(parent, from, r, s);
    forall i | 0 <= i < from
      ensures count2[i] == count[i]
    {
      assert i !in Subtree(children, r);
    }
  }

  /** What row `k` becomes: a root, a child of the member `findSponsorByID`
      finds from the previous row's member, an abandoned load or a failed
      cast. `sponsor` is the member to attach to, when there is one. */
  method DecideLink(parent: seq<Option<Node>>, member: seq<Member>, rows: seq<MemberRow>, links: seq<Option<nat>>, ghost f: seq<Node>,
                    k: nat, previous: int, sponsorStamp: int)
    returns (outcome: Replayed, sponsor: Option<Node>)
    requires Ordered(parent) && AboSponsors(parent, member) && Backward(links) && Mirror(parent, member, rows, links, f)
    requires k < |rows| && |links| == k && 0 <= rows[k].classOrdinal < 3 && sponsorStamp == rows[k].sponsorStamp
    requires 0 < k ==> previous == f[k - 1]
    ensures outcome == ReplayRow(rows, k, links)
    ensures sponsor.Some? <==> outcome.Built? && sponsorStamp != 0
    ensures sponsor.Some? ==> outcome.links[k].Some? && sponsor.value == f[outcome.links[k].value]
    ensures sponsor.Some? ==> sponsor.value < |parent| && member[sponsor.value].kind == Abo
  {
    if sponsorStamp == 0 {
      return Built(links + [None]), None;
    }
    if k == 0 {
      return Aborted, None;
    }
    sponsor := LookUpSponsor(parent, member, rows, links, f, k - 1, previous, sponsorStamp);
    SearchedRow(rows, k, links);
    if sponsor.None? {
      return Aborted, None;
    }
    var j := FindRow(rows, links, k - 1, sponsorStamp).value;
    assert ClassOrdinal(member[f[j]].kind) == rows[j].classOrdinal;
    if member[sponsor.value].kind != Abo {
      return Crashed, None;
    }
    outcome := Built(links + [Some(j)]);
  }

  /** `findSponsorByID` from the node of the previous row, on mirrored nodes. */
  method LookUpSponsor(parent: seq<Option<Node>>, member: seq<Member>, rows: seq<MemberRow>, links: seq<Option<nat>>, ghost f: seq<Node>, k: nat, x: int, id: int)
    returns (sponsor: Option<Node>)
    requires Ordered(parent) && AboSponsors(parent, member) && Backward(links)
    requires Mirror(parent, member, rows, links, f) && k < |links| && x == f[k]
    ensures var r := FindRow(rows, links, k, id);
      sponsor == if r.Some? then Some(f[r.value]) else None
  {
    FindMirror(parent, member, rows, links, f, k, id);
    sponsor := FindSponsorById(parent, member, x, id);
  }

  /** Row `k` with a sponsor stamp, after a row before it: what the search
      finds decides. */
  lemma SearchedRow(rows: seq<MemberRow>, k: nat, links: seq<Option<nat>>)
    requires 0 < k < |rows| && |links| == k && Backward(links)
    requires 0 <= rows[k].classOrdinal < 3 && rows[k].sponsorStamp != 0
    ensures var found := FindRow(rows, links, k - 1, rows[k].sponsorStamp);
      ReplayRow(rows, k, links) ==
        if found.None? then Aborted
        else if rows[found.value].classOrdinal != ClassOrdinal(Abo) then Crashed
        else Built(links + [found])
  {
  }

  /** Leaving the node of row `|links|` a root extends the mirror. */
  lemma MirrorRoot(parent: seq<Option<Node>>, member: seq<Member>, rows: seq<MemberRow>, links: seq<Option<nat>>, f: seq<Node>)
    requires Mirror(parent, member, rows, links, f) && |links| < |f| && |links| < |rows|
    requires f[|links|] < |parent| && parent[f[|links|]].None?
    requires member[f[|links|]].stamp == rows[|links|].stamp && ClassOrdinal(member[f[|links|]].kind) == rows[|links|].classOrdinal
    ensures Mirror(parent, member, rows, links + [None], f)
  {
  }

  /** Adding a node after the mirrored ones keeps the mirror. */
  lemma MirrorGrown(parent: seq<Option<Node>>, member: seq<Member>, parent2: seq<Option<Node>>, member2: seq<Member>,
                    rows: seq<MemberRow>, links: seq<Option<nat>>, f: seq<Node>)
    requires Mirror(parent, member, rows, links, f)
    requires |parent2| == |member2| && parent <= parent2 && member <= member2
    ensures Mirror(parent2, member2, rows, links, f)
  {
    forall k | 0 <= k < |links|
      ensures parent2[f[k]] == parent[f[k]] && member2[f[k]] == member[f[k]]
    {
    }
  }

  /** Linking the node of row `|links|` to the node of row `j` extends the mirror. */
  lemma MirrorAttached(parent: seq<Option<Node>>, member: seq<Member>, parent2: seq<Option<Node>>,
                       rows: seq<MemberRow>, links: seq<Option<nat>>, f: seq<Node>, j: nat)
    requires Mirror(parent, member, rows, links, f) && |links| < |f| && |links| < |rows| && j < |links|
    requires f[|links|] < |parent| && member[f[|links|]].stamp == rows[|links|].stamp
    requires ClassOrdinal(member[f[|links|]].kind) == rows[|links|].classOrdinal
    requires forall k :: 0 <= k < |links| ==> f[k] != f[|links|]
    requires parent2 == parent[f[|links|] := Some(f[j])]
    ensures Mirror(parent2, member, rows, links + [Some(j)], f)
  {
  }

  /** From `was` to `now` the nodes before `n0` keep their child lists,
      groups and counts, and the member, volume and display fields only
      grow. */
  ghost predicate Kept(now: Before, was: Before, n0: nat)
  {
    && was.member <= now.member && was.personal <= now.personal
    && was.base <= now.base && was.isExpand <= now.isExpand && was.level <= now.level
    && n0 <= |was.children| && n0 <= |was.group| && n0 <= |was.nodeCount|
    && was.children[..n0] <= now.children && was.group[..n0] <= now.group && was.nodeCount[..n0] <= now.nodeCount
  }

  /** A network that has not changed keeps its nodes. */
  lemma KeptSame(b: Before, n0: nat)
    requires n0 <= |b.children| && n0 <= |b.group| && n0 <= |b.nodeCount|
    ensures Kept(b, b, n0)
  {
  }

  /** Keeping the nodes before `n0` twice keeps them. */
  lemma KeptTrans(a: Before, b: Before, c: Before, n0: nat)
    requires Kept(b, a, n0) && Kept(c, b, n0)
    ensures Kept(c, a, n0)
  {
    PrefixTrans(a.member, b.member, c.member);
    PrefixTrans(a.personal, b.personal, c.personal);
    PrefixTrans(a.base, b.base, c.base);
    PrefixTrans(a.isExpand, b.isExpand, c.isExpand);
    PrefixTrans(a.level, b.level, c.level);
    PrefixCut(a.children, b.children, c.children, n0);
    PrefixCut(a.group, b.group, c.group, n0);
    PrefixCut(a.nodeCount, b.nodeCount, c.nodeCount, n0);
  }

  /** Appending to every per-node field keeps every node. */
  lemma AppendedKept(was: Before, now: Before, n0: nat)
    requires n0 <= |was.children| && n0 <= |was.group| && n0 <= |was.nodeCount|
    requires was.member <= now.member && was.personal <= now.personal && was.base <= now.base
    requires was.isExpand <= now.isExpand && was.level <= now.level && was.children <= now.children
    requires was.group <= now.group && was.nodeCount <= now.nodeCount
    ensures Kept(now, was, n0)
  {
    PrefixCut(was.children, was.children, now.children, n0);
    PrefixCut(was.group, was.group, now.group, n0);
    PrefixCut(was.nodeCount, was.nodeCount, now.nodeCount, n0);
  }

  /** The first `n0` entries kept twice are kept. */
  lemma PrefixCut<T>(a: seq<T>, b: seq<T>, c: seq<T>, n0: nat)
    requires n0 <= |a| && a[..n0] <= b && b[..n0] <= c
    ensures a[..n0] <= c
  {
    assert b[..n0] == a[..n0];
  }

  /** The nodes from `n0` on have their parents from `n0` on. */
  ghost predicate ClosedFrom(parent: seq<Option<Node>>, n0: nat)
  {
    forall i :: n0 <= i < |parent| && parent[i].Some? ==> parent[i].value >= n0
  }

  /** So every ancestor of such a node is one of them. */
  lemma {:induction false} AncestorsFrom(parent: seq<Option<Node>>, n0: nat, a: Node, x: Node)
    requires Ordered(parent) && ClosedFrom(parent, n0) && n0 <= x < |parent| && IsAncestorOrSelf(parent, a, x)
    ensures n0 <= a
    decreases x
  {
    if a != x {
      AncestorsFrom(parent, n0, a, parent[x].value);
    }
  }

  /** The nodes `f[k]` of the first `m` rows carry their rows' names and
      personal volumes. */
  ghost predicate Carried(member: seq<Member>, personal: seq<real>, rows: seq<MemberRow>, f: seq<Node>, m: nat)
  {
    && m <= |rows| && m <= |f|
    && forall k :: 0 <= k < m ==>
      f[k] < |member| && f[k] < |personal| && member[f[k]].name == rows[k].name && personal[f[k]] == rows[k].personal
  }

  /** A new node made from row `m` carries it. */
  lemma CarriedGrown(member: seq<Member>, personal: seq<real>, x: Member, member2: seq<Member>, personal2: seq<real>,
                     rows: seq<MemberRow>, f: seq<Node>, m: nat)
    requires Carried(member, personal, rows, f, m) && m < |rows| && m < |f| && f[m] == |member| == |personal|
    requires member2 == member + [x] && personal2 == personal + [rows[m].personal] && x.name == rows[m].name
    ensures Carried(member2, personal2, rows, f, m + 1)
  {
    forall k | 0 <= k < m
      ensures member2[f[k]] == member[f[k]] && personal2[f[k]] == personal[f[k]]
    {
    }
  }

  /** The nodes of the rows linked to row `i`, in row order. */
  function LinkedNodes(f: seq<Node>, links: seq<Option<nat>>, i: nat): (r: seq<Node>)
    requires |links| <= |f|
    ensures |r| <= |links|
    ensures forall n :: n in r ==> exists k :: 0 <= k < |links| && links[k] == Some(i) && f[k] == n
  {
    if links == [] then []
    else
      var k := |links| - 1;
      LinkedNodes(f, links[..k], i) + (if links[k] == Some(i) then [f[k]] else [])
  }

  /** One more row adds its node to the nodes of the row it is linked to. */
  lemma LinkedNodesSnoc(f: seq<Node>, links: seq<Option<nat>>, x: Option<nat>, i: nat)
    requires |links| < |f|
    ensures LinkedNodes(f, links + [x], i) == LinkedNodes(f, links, i) + (if x == Some(i) then [f[|links|]] else [])
  {
    assert (links + [x])[..|links|] == links;
  }

  /** No row is linked to a row that is not before it. */
  lemma {:induction false} NoLaterLinks(f: seq<Node>, links: seq<Option<nat>>, i: nat)
    requires |links| <= |f| && Backward(links) && |links| <= i + 1
    ensures LinkedNodes(f, links, i) == []
  {
    if links != [] {
      var k := |links| - 1;
      assert Backward(links[..k]) by {
        forall m | 0 <= m < k
          ensures links[..k][m] == links[m]
        {
        }
      }
      NoLaterLinks(f, links[..k], i);
    }
  }

  /** The node of each row has for children the nodes of the rows linked
      to it, in row order. */
  ghost predicate ChildLists(children: seq<seq<Node>>, links: seq<Option<nat>>, f: seq<Node>)
  {
    |links| <= |f| && forall i :: 0 <= i < |links| ==> f[i] < |children| && children[f[i]] == LinkedNodes(f, links, i)
  }

  /** Adding nodes keeps the child lists. */
  lemma ChildListsGrown(children: seq<seq<Node>>, children2: seq<seq<Node>>, links: seq<Option<nat>>, f: seq<Node>)
    requires ChildLists(children, links, f) && children <= children2
    ensures ChildLists(children2, links, f)
  {
    forall i | 0 <= i < |links|
      ensures children2[f[i]] == children[f[i]]
    {
    }
  }

  /** A row left without a link adds a node without children. */
  lemma ChildListsRoot(children: seq<seq<Node>>, links: seq<Option<nat>>, f: seq<Node>)
    requires ChildLists(children, links, f) && Backward(links) && |links| < |f|
    requires f[|links|] < |children| && children[f[|links|]] == []
    ensures ChildLists(children, links + [None], f)
  {
    forall i | 0 <= i <= |links|
      ensures children[f[i]] == LinkedNodes(f, links + [None], i)
    {
      LinkedNodesSnoc(f, links, None, i);
      if i == |links| {
        NoLaterLinks(f, links, i);
      }
    }
  }

  /** Linking row `|links|` to row `j` appends its node, which has no
      children yet, to the children of the node of row `j`. */
  lemma ChildListsAttached(children: seq<seq<Node>>, children2: seq<seq<Node>>, links: seq<Option<nat>>, f: seq<Node>,
                           from: nat, j: nat)
    requires ChildLists(children, links, f) && Backward(links) && j < |links| < |f| && f == Handles(from, |f|)
    requires f[|links|] < |children| && children[f[|links|]] == []
    requires children2 == children[f[j] := children[f[j]] + [f[|links|]]]
    ensures ChildLists(children2, links + [Some(j)], f)
  {
    forall i | 0 <= i <= |links|
      ensures children2[f[i]] == LinkedNodes(f, links + [Some(j)], i)
    {
      LinkedNodesSnoc(f, links, Some(j), i);
      if i == |links| {
        NoLaterLinks(f, links, i);
      }
    }
  }

  /** `MemberDBHelper.readNetworkEntries`: the roots, or null when the load
      gave up; the network changes as the replay loop says. */
  method ReadMemberEntries(net: Network, rows: seq<MemberRow>) returns (result: Load<Option<seq<Node>>>)
    requires net.Valid() && net.Sponsored()
    modifies net
    ensures net.Valid() && net.Sponsored()
    ensures old(net.Consistent()) ==> net.Consistent()
    ensures old(net.parent) <= net.parent && old(net.member) <= net.member && old(net.personal) <= net.personal
    ensures old(net.children) <= net.children && old(net.group) <= net.group && old(net.nodeCount) <= net.nodeCount
    ensures Replay(rows, |rows|).Built? ==>
      var f := Handles(old(|net.parent|), |rows|);
      && |net.parent| == old(|net.parent|) + |rows| && Mirror(net.parent, net.member, rows, Replay(rows, |rows|).links, f)
      && Carried(net.member, net.personal, rows, f, |rows|) && ChildLists(net.children, Replay(rows, |rows|).links, f)
    ensures result == match Replay(rows, |rows|)
      case Built(links) => Returned(Some(RootsAt(links, old(|net.parent|))))
      case Aborted => Returned(None)
      case Crashed => Thrown
  {
    var outcome, roots := ReplayRows(net, rows);
    match outcome
    case Built(_) => result := Returned(Some(roots));
    case Aborted => result := Returned(None);
    case Crashed => result := Thrown;
  }

  /** `RecordDBHelper.readNetworkEntries`: the roots, or an empty list when
      the load gave up; the network changes as the replay loop says. */
  method ReadRecordEntries(net: Network, rows: seq<MemberRow>) returns (result: Load<seq<Node>>)
    requires net.Valid() && net.Sponsored()
    modifies net
    ensures net.Valid() && net.Sponsored()
    ensures old(net.Consistent()) ==> net.Consistent()
    ensures old(net.parent) <= net.parent && old(net.member) <= net.member && old(net.personal) <= net.personal
    ensures old(net.children) <= net.children && old(net.group) <= net.group && old(net.nodeCount) <= net.nodeCount
    ensures Replay(rows, |rows|).Built? ==>
      var f := Handles(old(|net.parent|), |rows|);
      && |net.parent| == old(|net.parent|) + |rows| && Mirror(net.parent, net.member, rows, Replay(rows, |rows|).links, f)
      && Carried(net.member, net.personal, rows, f, |rows|) && ChildLists(net.children, Replay(rows, |rows|).links, f)
    ensures result == match Replay(rows, |rows|)
      case Built(links) => Returned(RootsAt(links, old(|net.parent|)))
      case Aborted => Returned([])
      case Crashed => Thrown
  {
    var outcome, roots := ReplayRows(net, rows);
    result := if outcome.Crashed? then Thrown else Returned(roots);
  }
}
