# BigTree commission engine, modelled in Dafny

BigTree is an Android simulator of an Amway-style sales network. Members
(ABOs, which can sponsor others, and on-line and off-line members, which
cannot) hang in a sponsorship tree. Each member carries a personal and a
group point volume (PV). The app computes each ABO's monthly bonuses and PIN
title from those volumes, shows the tree as a collapsible list, and saves the
network to a table of rows and loads it back.

This project models the engine behind that, module by module:

- **Calendar** (`calendar.dfy`, from `AmSystem.kt`)
  - `AmMonth` normalises a (year, month) pair.
  - Month arithmetic and comparison on the month total.
  - The fiscal year, which runs from September to August.
  - The month range and its iterator. The iterator's cursor *is* the range's
    start object, so iterating a range moves its start.
- **Rates** (`rates.dfy`): the first-bonus rate table, its first-match lookup,
  and the constants.
- **Network** (`network.dfy`, `forest.dfy`)
  - The whole node graph is one mutable object, `MemberNetwork.Network`. It
    holds one sequence per field of `TreeNode`, `AmNode`, `AmMember`/`ABO`,
    `AmPV` and the bases of `AmPV`/`AmBonus`, indexed by node handle.
  - A parent is always created before its children, so parent handles are
    smaller than child handles, which makes the links acyclic.
  - `Forest` holds the tree vocabulary: ancestors, chains, subtrees and the
    pre-order listing.
  - `Listing` (`listing.dfy`) reads each node's child list back off a fully
    expanded listing.
- **Ledger** (`ledger.dfy`, from `AmPV.kt`): adding, subtracting or resetting
  personal volume pushes the change up the sponsor chain at once, so every
  group is the member's personal volume plus its children's groups.
- **Partners** (`partners.dfy`, from `AmMember.kt`/`AmPV.kt`)
  - The ABO partners of a member, and the independent ones among them (first
    bonus rate at the 21% top).
  - The personal-group volume.
  - The pure independent downline.
- **Bonus** (`bonus.dfy`, from `AmBonus.kt`)
  - The nine bonus categories: the stair-step first bonus, leadership with its
    recursive pass-up and 60-PV guarantee, ruby, monthly depth with its
    recursive pass-up, and five categories that never pay.
  - Totals, and writing the amounts into a monthly record.
- **Pin** (`pin.dfy`, from `PIN.kt`)
  - Titles are evaluated from the highest rank down.
  - Titles are counted in an ABO's record list over a window, including the
    length of the trailing run.
- **Members** (`members.dfy`, from `AmMember.kt`)
  - Stamps; the sponsor cast; the search up the chain for a stamp.
  - The line of sponsorship; the upline test.
  - The partner lists built child by child.
  - The monthly close, which truncates and appends to the record list.
  - The reset of the bases.
- **TreeNodes** and **AmNodes** (`treenode.dfy`, `amnode.dfy`, from
  `RecyclerTreeView.kt` and `AmNode.kt`)
  - Attaching and detaching nodes, and subtree counts.
  - Levels and ancestry tests.
  - The sample-network builders (`addNetwork3/6/64/642`).
  - Writing a subtree out as rows and reading a row back.
- **Display** (`display.dfy`, from `TreeAdapter` in `RecyclerTreeView.kt`)
  - The list of shown nodes, and its in-place edits when a row is clicked.
  - These edits are proved to give the same list as a full rebuild.
- **AmDb** (`amdb.dfy`, from `AmDB.kt`)
  - The column declarations and the `CREATE TABLE` statement.
  - The replay that rebuilds the network from its rows.
  - The save/load round trip: the same roots, parent links and child order.

Kotlin's nullable references become `Option` (`wrappers.dfy`). An exception
that escapes a loader becomes an explicit outcome (`Crashed`, `Thrown`).
Volumes are exact reals.

## Model

| member | source | states |
|---|---|---|
| Calendar.KDiv | app/src/main/java/com/lgsdiamond/bigtree/amway/AmSystem.kt:68 | Kotlin's `/` on `Int`: the quotient is truncated toward zero, so the remainder it leaves lies in [0, 12) for a non-negative total and in (-12, 0] for a negative one |
| Calendar.KRem | app/src/main/java/com/lgsdiamond/bigtree/amway/AmSystem.kt:69 | Kotlin's `%` on `Int`: dividend = quotient * divisor + remainder, and the remainder takes the dividend's sign |
| Calendar.Normalize | app/src/main/java/com/lgsdiamond/bigtree/amway/AmSystem.kt:65-75 | The initializer keeps `totalMonth` unchanged, leaves a month in 1..12 untouched, turns month 0 into December of the year before, and gives a month in 1..12 whenever the total is non-negative |
| Calendar.NormalTotalInjective | app/src/main/java/com/lgsdiamond/bigtree/amway/AmSystem.kt:47-48 | Two months in 1..12 with the same `totalMonth` are equal |
| Calendar.NormalizeIdempotent | app/src/main/java/com/lgsdiamond/bigtree/amway/AmSystem.kt:65-75 | Normalising an already normalised month changes nothing, including the out-of-range months that negative totals leave |
| Calendar.Plus | app/src/main/java/com/lgsdiamond/bigtree/amway/AmSystem.kt:57 | `plus(n)` adds exactly n to `totalMonth`, and the result is a calendar month whenever the new total is non-negative |
| Calendar.Minus | app/src/main/java/com/lgsdiamond/bigtree/amway/AmSystem.kt:58 | `minus(n)` takes exactly n from `totalMonth`, and the result is a calendar month whenever the new total is non-negative |
| Calendar.PlusTwelve | app/src/main/java/com/lgsdiamond/bigtree/amway/AmSystem.kt:57 | Adding twelve months gives the same month of the next year (for example 2018-09 + 12 = 2019-09) |
| Calendar.MinusPlus | app/src/main/java/com/lgsdiamond/bigtree/amway/AmSystem.kt:57-58 | Taking n months away and adding them back gives the original month |
| Calendar.CompareTo | app/src/main/java/com/lgsdiamond/bigtree/amway/AmSystem.kt:61 | `compareTo` is zero exactly when the totals are equal, and negative exactly when the first total is smaller |
| Calendar.CompareToZeroIff | app/src/main/java/com/lgsdiamond/bigtree/amway/AmSystem.kt:60-61 | For calendar months, `compareTo` is zero exactly when `equals` holds, and it orders first by year and then by month |
| Calendar.StartPF | app/src/main/java/com/lgsdiamond/bigtree/amway/AmSystem.kt:50-51 | `startPF` is a September, the latest one not after the month |
| Calendar.EndPF | app/src/main/java/com/lgsdiamond/bigtree/amway/AmSystem.kt:52-53 | `endPF` is an August, the earliest one not before the month |
| Calendar.EndIsStartPlusEleven | app/src/main/java/com/lgsdiamond/bigtree/amway/AmSystem.kt:50-53 | `endPF` is `startPF` + 11 |
| Calendar.PfYearNumber | app/src/main/java/com/lgsdiamond/bigtree/amway/AmSystem.kt:40-41 | The fiscal-year number equals the year of `endPF` minus 2000, so it is one higher from September on |
| Calendar.PfMonthOf | app/src/main/java/com/lgsdiamond/bigtree/amway/AmSystem.kt:42-43 | The `PFMonth` index lookup succeeds exactly for months -3..20, and for a calendar month the chosen entry holds that month |
| Calendar.AmMonth.constructor | app/src/main/java/com/lgsdiamond/bigtree/amway/AmSystem.kt:65-75 | The object's fields end up holding the normalised (year, month) |
| Calendar.RangeMonths | app/src/main/java/com/lgsdiamond/bigtree/amway/AmSystem.kt:19-35 | The iteration yields nothing when start is after end; otherwise it starts at start, stays at or before end, and each entry is `step` months after the one before |
| Calendar.RangeStepOne | app/src/main/java/com/lgsdiamond/bigtree/amway/AmSystem.kt:19-35 | With step 1 the range yields start, start + 1, ..., end: one entry per month |
| Calendar.AfterRange | app/src/main/java/com/lgsdiamond/bigtree/amway/AmSystem.kt:21-28 | The start object ends up past end, and an empty range leaves it where it was |
| Calendar.AfterRangeStepOne | app/src/main/java/com/lgsdiamond/bigtree/amway/AmSystem.kt:21-28 | After a non-empty step-1 iteration the range's start object holds end + 1 |
| Calendar.SecondIterationEmpty | app/src/main/java/com/lgsdiamond/bigtree/amway/AmSystem.kt:12-30 | Iterating the same range object a second time yields nothing |
| Calendar.MonthRangeIterator.constructor | app/src/main/java/com/lgsdiamond/bigtree/amway/AmSystem.kt:19-21 | The iterator's cursor `current` is the range's start object itself |
| Calendar.MonthRangeIterator.Next | app/src/main/java/com/lgsdiamond/bigtree/amway/AmSystem.kt:23-30 | `next` returns the cursor's month and moves the start object to start + step |
| Calendar.MonthRangeIterator.HasNext | app/src/main/java/com/lgsdiamond/bigtree/amway/AmSystem.kt:32-35 | `hasNext` holds exactly while the cursor's total month is not past the end's |
| Calendar.IterateRange | app/src/main/java/com/lgsdiamond/bigtree/amway/AmSystem.kt:12-35 | A `for` loop over the range visits exactly `RangeMonths` and leaves the start object at `AfterRange` |
| Entities.ClassOfOrdinal | app/src/main/java/com/lgsdiamond/bigtree/tree/AmNode.kt:127-129 | `AmMemberClass.values()[ordinal]` exists exactly for ordinals 0..2, and it gives back the class with that ordinal |
| Entities.ClassOrdinalRoundTrip | app/src/main/java/com/lgsdiamond/bigtree/tree/AmNode.kt:106-129 | Storing a class as its ordinal and reading it back gives the same class |
| Entities.NewRecord | app/src/main/java/com/lgsdiamond/bigtree/amway/AmDB.kt:76-91 | A new `MonthlyRecord` has the given month and no PIN, and each of its three volumes and nine bonus fields is 0.0 |
| Rates.FirstMatch | app/src/main/java/com/lgsdiamond/bigtree/amway/AmBonus.kt:46 | `first { pv >= it.pv }` finds the first row whose threshold the volume reaches; every row before it has a higher threshold |
| Rates.RateSteps | app/src/main/java/com/lgsdiamond/bigtree/amway/AmSystem.kt:89-98 | The table read as a step function: 21% from 1000, 18% from 680, 15% from 400, 12% from 240, 9% from 120, 6% from 60, 3% from 20, and 0% below 20 |
| Rates.GetFirstBonusRate | app/src/main/java/com/lgsdiamond/bigtree/amway/AmBonus.kt:46 | The rate lies in [0, 0.21], equals 0.21 exactly when the volume is at least 1000, and is 0 below 20 |
| Rates.RateMonotone | app/src/main/java/com/lgsdiamond/bigtree/amway/AmBonus.kt:46 | A larger volume never gets a smaller rate |
| Rates.TableOrdered | app/src/main/java/com/lgsdiamond/bigtree/amway/AmSystem.kt:89-98 | Thresholds strictly decrease down the table, rates never increase, and the last threshold (-0.1) accepts every non-negative volume |
| Rates.PvToBv | app/src/main/java/com/lgsdiamond/bigtree/amway/AmPV.kt:64 | With a PV/BV ratio of 1.0 every BV getter equals its PV value |
| MemberNetwork.AboSponsorsWithRoot | app/src/main/java/com/lgsdiamond/bigtree/amway/AmMember.kt:30-31 | Adding a detached member of any class keeps every sponsor an ABO, so every `sponsor` cast still succeeds |
| MemberNetwork.Network.constructor | app/src/main/java/com/lgsdiamond/bigtree/amway/AmMember.kt:49 | An empty network is a forest whose group volumes roll up; stamps start from the given seed (the clock reading in the source) |
| MemberNetwork.Network.InitMember | app/src/main/java/com/lgsdiamond/bigtree/amway/AmMember.kt:24 | A new member takes the next stamp, has no records and no PIN, and starts with `group == personal` and both bases at 0 |
| MemberNetwork.Network.InitNode | app/src/main/java/com/lgsdiamond/bigtree/tree/RecyclerTreeView.kt:18-28 | A new node has no parent, no children, is collapsed, has an unset level and a node count of 1 |
| MemberNetwork.Network.NewMember | app/src/main/java/com/lgsdiamond/bigtree/tree/AmNode.kt:16-27 | A new member node is detached and keeps the forest, the volume rollup and the ABO sponsors |
| Ledger.SponsoredUp | app/src/main/java/com/lgsdiamond/bigtree/amway/AmMember.kt:30-31 | When every parent is an ABO, every `sponsor` cast up any chain succeeds |
| Ledger.AddGroup | app/src/main/java/com/lgsdiamond/bigtree/amway/AmPV.kt:42-45 | `addGroup` adds the volume to the group of the member and of each ancestor, and of no other node |
| Ledger.AddPersonal | app/src/main/java/com/lgsdiamond/bigtree/amway/AmPV.kt:27-31 | A non-negative `addPersonal` raises personal by that amount and the group of the member and every ancestor by the same amount; nothing else changes and the rollup is kept |
| Ledger.SubtractPersonal | app/src/main/java/com/lgsdiamond/bigtree/amway/AmPV.kt:33-40 | Returns min(pv, personal), leaves personal >= 0, and lowers the group of the member and every ancestor by exactly the returned amount; the rollup is kept |
| Ledger.ResetPersonal | app/src/main/java/com/lgsdiamond/bigtree/amway/AmPV.kt:17-25 | Leaves personal equal to the new value and shifts the group of the member and every ancestor by the difference; the rollup is kept |
| Ledger.StrictAncestors | app/src/main/java/com/lgsdiamond/bigtree/amway/AmPV.kt:44 | The ancestors of a member's sponsor are exactly the member's ancestors other than itself |
| Ledger.AddGroupToSponsor | app/src/main/java/com/lgsdiamond/bigtree/amway/AmPV.kt:47-49 | Adds the member's whole group to every strict ancestor and leaves its own group unchanged |
| Ledger.SubtractGroupFromSponsor | app/src/main/java/com/lgsdiamond/bigtree/amway/AmPV.kt:51-53 | Takes the member's whole group out of every strict ancestor and leaves its own group unchanged |
| Ledger.ResetBase | app/src/main/java/com/lgsdiamond/bigtree/amway/AmPV.kt:55-57 | After `resetBase`, `groupChange` is 0 |
| Ledger.GroupChange | app/src/main/java/com/lgsdiamond/bigtree/amway/AmPV.kt:9-10 | `groupChange` is what the group gained since the base, and 0 exactly when the group equals the base |
| Ledger.ShiftPersonal | app/src/main/java/com/lgsdiamond/bigtree/amway/AmPV.kt:27-45 | Changes the member's personal volume by d, and the group of the member and of each of its ancestors by d, and nothing else; the rollup is kept |
| Partners.FirstBonusRate | app/src/main/java/com/lgsdiamond/bigtree/amway/AmMember.kt:121-122 | An ABO's first-bonus rate is in [0, 0.21] and is the top rate exactly when its group is at least 1000 |
| Partners.IndependentIff | app/src/main/java/com/lgsdiamond/bigtree/amway/AmMember.kt:165-166 | An ABO is independent exactly when its group volume is at least 1000 |
| Partners.AboIn | app/src/main/java/com/lgsdiamond/bigtree/amway/AmMember.kt:172-179 | Keeps exactly the ABOs of the list, in order |
| Partners.IndependentIn | app/src/main/java/com/lgsdiamond/bigtree/amway/AmMember.kt:167-168 | Keeps exactly the independent members of the list, in order |
| Partners.SupportIn | app/src/main/java/com/lgsdiamond/bigtree/amway/AmPV.kt:70-73 | Keeps exactly the members of the list that are not independent ABOs |
| Partners.IndependentOfAbo | app/src/main/java/com/lgsdiamond/bigtree/amway/AmMember.kt:167-188 | Taking the ABOs first and then the independent ones gives the same list as taking the independent ones directly |
| Partners.SumSplit | app/src/main/java/com/lgsdiamond/bigtree/amway/AmPV.kt:70-73 | A sum of group volumes splits into the independent members' part and the rest |
| Partners.AboPartners | app/src/main/java/com/lgsdiamond/bigtree/amway/AmMember.kt:172-179 | `aboPartners` holds exactly the ABO children, each a node created after the ABO |
| Partners.IndependentPartners | app/src/main/java/com/lgsdiamond/bigtree/amway/AmMember.kt:181-188 | `independentPartners` is the independent children in child order, and holds exactly the independent children |
| Partners.PersonalGroup | app/src/main/java/com/lgsdiamond/bigtree/amway/AmPV.kt:72-73 | `personalGroup` plus the independent partners' group volume is the group volume |
| Partners.PersonalGroupRollup | app/src/main/java/com/lgsdiamond/bigtree/amway/AmPV.kt:70-73 | When the groups roll up, `personalGroup` is the member's own volume plus the groups of its children that are not independent ABOs |
| Partners.PureIndependentDownline | app/src/main/java/com/lgsdiamond/bigtree/amway/AmMember.kt:193-204 | Every node of the pure independent downline lies below the ABO |
| Partners.PureDownlineOf | app/src/main/java/com/lgsdiamond/bigtree/amway/AmMember.kt:196-202 | The downline collected over a list of partners lies below the node they belong to |
| Partners.PureDownlineIsPure | app/src/main/java/com/lgsdiamond/bigtree/amway/AmMember.kt:190-204 | Every node of `pureIndependentDownline` is a pure independent: independent, with no independent partner |
| Partners.IsIndependent | app/src/main/java/com/lgsdiamond/bigtree/amway/AmMember.kt:165-166 | An independent member is an ABO with a group of at least 1000 |
| Partners.IndependentVolume | app/src/main/java/com/lgsdiamond/bigtree/amway/AmPV.kt:70-71 | With no independent partners the independent volume is 0; otherwise it is at least 1000 per independent partner |
| Partners.IsPureIndependent | app/src/main/java/com/lgsdiamond/bigtree/amway/AmMember.kt:190-191 | A pure independent ABO has a group of at least 1000, all of it personal group |
| Partners.IsQualifiedPin | app/src/main/java/com/lgsdiamond/bigtree/amway/AmMember.kt:206-208 | `isQualifiedPIN` never holds |
| Forest.AncestorNotAfter | app/src/main/java/com/lgsdiamond/bigtree/tree/AmNode.kt:99-103 | An ancestor is never created after its descendant |
| Forest.AncestorTrans | app/src/main/java/com/lgsdiamond/bigtree/tree/AmNode.kt:99-103 | Being an ancestor is transitive |
| Forest.Chain | app/src/main/java/com/lgsdiamond/bigtree/amway/AmMember.kt:215-226 | The chain starts at the node, steps from each entry to its parent, and ends at a root |
| Forest.ChainMembers | app/src/main/java/com/lgsdiamond/bigtree/amway/AmMember.kt:215-226 | The chain lists exactly the node and its ancestors |
| Forest.Root | app/src/main/java/com/lgsdiamond/bigtree/tree/AmNode.kt:172-178 | The node at the top of the chain is a root and an ancestor of the node |
| Forest.Depth | app/src/main/java/com/lgsdiamond/bigtree/tree/AmNode.kt:45-51 | The number of ancestors: the length of the chain minus one, and 0 exactly for a root |
| Forest.AttachChild | app/src/main/java/com/lgsdiamond/bigtree/tree/RecyclerTreeView.kt:52-56 | Appending a node that no list holds to an earlier node's children, and pointing it back, keeps the forest |
| Forest.ClearChildren | app/src/main/java/com/lgsdiamond/bigtree/tree/RecyclerTreeView.kt:46 | Clearing a child list keeps the forest, and its former children are then in no list |
| Forest.Flatten | app/src/main/java/com/lgsdiamond/bigtree/tree/RecyclerTreeView.kt:133-139 | The display listing: each node followed by its children's listing when it is expanded and not a leaf; every node listed lies below the starting point |
| Forest.Subtree | app/src/main/java/com/lgsdiamond/bigtree/tree/AmNode.kt:117-120 | The pre-order listing of a node's whole subtree starts with the node, followed only by later nodes |
| Forest.SubtreeMembers | app/src/main/java/com/lgsdiamond/bigtree/tree/AmNode.kt:117-120 | The subtree listing holds exactly the node and its descendants |
| Forest.FlattenComplete | app/src/main/java/com/lgsdiamond/bigtree/tree/AmNode.kt:117-120 | With every node expanded, each descendant of a listed starting node is listed |
| Forest.FlattenDescends | app/src/main/java/com/lgsdiamond/bigtree/tree/RecyclerTreeView.kt:133-139 | Every listed node descends from one of the starting nodes |
| Forest.FlattenNoDup | app/src/main/java/com/lgsdiamond/bigtree/tree/RecyclerTreeView.kt:133-139 | Listing siblings with their descendants never lists a node twice |
| Forest.FlattenPreOrder | app/src/main/java/com/lgsdiamond/bigtree/tree/AmNode.kt:117-120 | The full listing is in pre-order: every node with a parent is listed after that parent, and right after a node of the parent's subtree |
| Listing.FlattenChildren | app/src/main/java/com/lgsdiamond/bigtree/tree/RecyclerTreeView.kt:133-139 | In the fully expanded listing, the listed nodes whose parent is p are the starting nodes when they all hang under p, otherwise p's children in their order when p is listed, and none when it is not |
| TreeNodes.AddChild | app/src/main/java/com/lgsdiamond/bigtree/tree/RecyclerTreeView.kt:52-56 | `addChild` appends the node at the end of the children and sets its parent; nothing else changes |
| TreeNodes.SetChildList | app/src/main/java/com/lgsdiamond/bigtree/tree/RecyclerTreeView.kt:45-50 | The child list becomes the new list, each new child points at the node, and the old children keep their now stale parent link |
| TreeNodes.RelistNext | app/src/main/java/com/lgsdiamond/bigtree/tree/RecyclerTreeView.kt:47-49 | One turn of the loop attaches the next new child and keeps the loop's invariant |
| TreeNodes.GetLevel | app/src/main/java/com/lgsdiamond/bigtree/tree/RecyclerTreeView.kt:36-43 | A root gets 0; an already cached level is returned unchanged; otherwise the parent's level + 1 is cached; levels that were sound stay sound and the result is the depth |
| TreeNodes.Toggle | app/src/main/java/com/lgsdiamond/bigtree/tree/RecyclerTreeView.kt:58-61 | `toggle` flips the flag and returns the new value |
| TreeNodes.Expand | app/src/main/java/com/lgsdiamond/bigtree/tree/RecyclerTreeView.kt:74-78 | `expand` sets the flag and nothing else |
| TreeNodes.Collapse | app/src/main/java/com/lgsdiamond/bigtree/tree/RecyclerTreeView.kt:63-67 | `collapse` clears the flag and nothing else |
| TreeNodes.ExpandAll | app/src/main/java/com/lgsdiamond/bigtree/tree/RecyclerTreeView.kt:80-83 | Sets the flag on exactly the nodes of the subtree |
| TreeNodes.CollapseAll | app/src/main/java/com/lgsdiamond/bigtree/tree/RecyclerTreeView.kt:69-72 | Clears the flag on exactly the nodes of the subtree |
| TreeNodes.Clone | app/src/main/java/com/lgsdiamond/bigtree/tree/RecyclerTreeView.kt:104-108 | The copy has the same content and flag, no parent and no children |
| Members.SetIdStamp | app/src/main/java/com/lgsdiamond/bigtree/amway/AmMember.kt:26-28 | `setIDStamp` replaces the member's stamp and nothing else |
| Members.Sponsor | app/src/main/java/com/lgsdiamond/bigtree/amway/AmMember.kt:30-31 | `sponsor` is present exactly when the node has a parent; it is that parent, created earlier, and an ABO |
| Members.FindSponsorById | app/src/main/java/com/lgsdiamond/bigtree/amway/AmMember.kt:39-42 | Finds the nearest node, from the member itself upwards, that carries the stamp, and nothing when no node on the chain carries it |
| Members.AncestorsNotAfter | app/src/main/java/com/lgsdiamond/bigtree/amway/AmMember.kt:39-42 | No node on the chain above a member was created after it |
| Members.IsUplineSponsor | app/src/main/java/com/lgsdiamond/bigtree/amway/AmMember.kt:210-213 | `isUplineSponsor(leader)` holds exactly when the leader is a strict ancestor |
| Members.BuildLos | app/src/main/java/com/lgsdiamond/bigtree/amway/AmMember.kt:215-226 | Returns a list exactly when `top` is a strict ancestor (never when `top` is the member itself); the list is the member, its sponsor, and so on up to `top`, with `top` only at the end |
| Members.SupportMembers | app/src/main/java/com/lgsdiamond/bigtree/amway/AmMember.kt:156-163 | `supportMembers` is the child list in order |
| Members.AboPartnerList | app/src/main/java/com/lgsdiamond/bigtree/amway/AmMember.kt:172-179 | The loop builds exactly `aboPartners` |
| Members.IndependentPartnerList | app/src/main/java/com/lgsdiamond/bigtree/amway/AmMember.kt:181-188 | The loop builds exactly `independentPartners` |
| Members.FirstRecordOf | app/src/main/java/com/lgsdiamond/bigtree/amway/AmMember.kt:134-136 | `firstOrNull` finds the first record for the month, and nothing when there is none |
| Members.Kept | app/src/main/java/com/lgsdiamond/bigtree/amway/AmMember.kt:133-142 | The kept records are a prefix of the records without the month; all of them when the month has no record, and otherwise everything before its first record |
| Members.CutBook | app/src/main/java/com/lgsdiamond/bigtree/amway/AmMember.kt:138-149 | What the later steps of `finalizeMonth` read: the same network with the ABO's records already cut back |
| Members.MonthRecord | app/src/main/java/com/lgsdiamond/bigtree/amway/AmMember.kt:145-151 | The new record holds the month, the group, personal and personal-group volumes, and each bonus field the amount of its own bonus kind (first, leadership, ruby, monthly depth, emerald, diamond, diamond plus, one-time, FAA), which add up to the total; its PIN stays NONE |
| Members.CutBookOk | app/src/main/java/com/lgsdiamond/bigtree/amway/AmMember.kt:138-151 | Cutting the records back changes none of the volumes or classes the getters read |
| Members.Finalized | app/src/main/java/com/lgsdiamond/bigtree/amway/AmMember.kt:129-154 | The ABO after `finalizeMonth` keeps its class, stamp and name; its records become the kept records plus the new one |
| Members.FinalizeMonth | app/src/main/java/com/lgsdiamond/bigtree/amway/AmMember.kt:129-154 | With no month nothing changes; otherwise only the ABO's member entry changes, to `Finalized` |
| Members.TruncateRecords | app/src/main/java/com/lgsdiamond/bigtree/amway/AmMember.kt:138-142 | The removal loop leaves exactly the kept records |
| Members.FirstRecordIndex | app/src/main/java/com/lgsdiamond/bigtree/amway/AmMember.kt:134-139 | The search gives the index of the first record for the month, or -1 |
| Members.FinalizeTruncates | app/src/main/java/com/lgsdiamond/bigtree/amway/AmMember.kt:138-153 | When the month already has a record at index i, the records before i are kept, the rest are dropped, and one record for the month is appended |
| Members.FirstRecordFound | app/src/main/java/com/lgsdiamond/bigtree/amway/AmMember.kt:134-136 | The first record for the month is found at its index |
| Members.FinalizeAppends | app/src/main/java/com/lgsdiamond/bigtree/amway/AmMember.kt:133-153 | When the month has no record, nothing is removed and the new record is appended at the end, even after records for later months |
| Members.FinalizedRecord | app/src/main/java/com/lgsdiamond/bigtree/amway/AmMember.kt:145-153 | The appended record stores the month and the group, personal and personal-group volumes as they were before the records were cut, and its PIN stays NONE because `evaluate` only sets the current title |
| Members.SameVolumesSamePartners | app/src/main/java/com/lgsdiamond/bigtree/amway/AmMember.kt:181-188 | Changing only records and titles leaves the independent partners and the personal group unchanged |
| Members.BonusResetBase | app/src/main/java/com/lgsdiamond/bigtree/amway/AmBonus.kt:40-42 | After `AmBonus.resetBase`, `totalChange` is 0 |
| Members.MemberResetBase | app/src/main/java/com/lgsdiamond/bigtree/amway/AmMember.kt:124-127 | After an ABO's `resetBase` both `groupChange` and `totalChange` are 0; any other member resets only the ledger base; no other member's base changes |
| Members.TotalChange | app/src/main/java/com/lgsdiamond/bigtree/amway/AmBonus.kt:19-20 | `totalChange` is what the total gained since the base, and 0 exactly when the total equals the base |
| Members.BuildRecord | app/src/main/java/com/lgsdiamond/bigtree/amway/AmMember.kt:145-151 | The statements build exactly the record `MonthRecord` describes |
| Members.FinalizedMember | app/src/main/java/com/lgsdiamond/bigtree/amway/AmMember.kt:129-154 | The steps of `finalizeMonth` (truncate, evaluate, build, append) give exactly the member `Finalized` describes |
| Bonus.Max | app/src/main/java/com/lgsdiamond/bigtree/amway/AmBonus.kt:104 | `Math.max` is at least both arguments and equal to one of them |
| Bonus.PartnersAfter | app/src/main/java/com/lgsdiamond/bigtree/amway/AmMember.kt:181-188 | An ABO's independent partners are independent nodes created after it |
| Bonus.FirstBonusAmount | app/src/main/java/com/lgsdiamond/bigtree/amway/AmBonus.kt:68-77 | The loop computes the ABO's group bonus less the group bonus of each ABO partner |
| Bonus.FirstBonusExample | app/src/main/java/com/lgsdiamond/bigtree/amway/AmBonus.kt:68-80 | Group 1200 over one ABO partner with group 500 gives 252 - 75 = 177 |
| Bonus.GroupBonusSumStep | app/src/main/java/com/lgsdiamond/bigtree/amway/AmBonus.kt:73-75 | Each partner of the loop takes off its own group bonus |
| Bonus.LeadershipPassUp | app/src/main/java/com/lgsdiamond/bigtree/amway/AmBonus.kt:98-114 | A qualified ABO passes up at least 60 and at least 6% of its personal group |
| Bonus.LeadershipAmountBounds | app/src/main/java/com/lgsdiamond/bigtree/amway/AmBonus.kt:116-133 | A qualified ABO gets its independents' pass-ups in full once its personal group reaches 1000; below that, exactly max(0, 60 - 6% of its personal group) less |
| Bonus.RubyMembers | app/src/main/java/com/lgsdiamond/bigtree/amway/AmBonus.kt:148-154 | The members the ruby loop counts are children of the ABO |
| Bonus.RubySkipsNothing | app/src/main/java/com/lgsdiamond/bigtree/amway/AmBonus.kt:148-154 | Because `isQualifiedPIN` is always false, the PT exclusion never skips anyone: the loop counts exactly the members that are not independent ABOs |
| Bonus.RubyStep | app/src/main/java/com/lgsdiamond/bigtree/amway/AmBonus.kt:148-154 | One more child adds its group volume exactly when it is not an independent ABO |
| Bonus.RubyAmountLoop | app/src/main/java/com/lgsdiamond/bigtree/amway/AmBonus.kt:143-158 | The loop computes 2% of the personal volume plus the group of each counted member, and 0 when the ABO does not qualify |
| Bonus.RubyIsTwoPercent | app/src/main/java/com/lgsdiamond/bigtree/amway/AmBonus.kt:140-158 | When the volumes roll up, ruby pays 2% of the personal group when it is at least 2000 (so exactly 2000 qualifies), and 0 otherwise |
| Bonus.MdFloorSum | app/src/main/java/com/lgsdiamond/bigtree/amway/AmBonus.kt:177-179 | Each partner contributes at least 1% of 1000 |
| Bonus.MdPassUp | app/src/main/java/com/lgsdiamond/bigtree/amway/AmBonus.kt:170-185 | An ABO that is not independent passes up 0; a qualified independent passes up at least 1% of its personal group plus 10 per independent partner |
| Bonus.Shortfall | app/src/main/java/com/lgsdiamond/bigtree/amway/AmBonus.kt:199-204 | The shortfall deduction is never negative |
| Bonus.MdAmount | app/src/main/java/com/lgsdiamond/bigtree/amway/AmBonus.kt:187-207 | A qualified ABO gets at most the second-tier pass-ups |
| Bonus.PartnerPassUps | app/src/main/java/com/lgsdiamond/bigtree/amway/AmBonus.kt:193-195 | The inner loop adds up the pass-ups of one partner's independent partners |
| Bonus.PassUpSumStep | app/src/main/java/com/lgsdiamond/bigtree/amway/AmBonus.kt:193-195 | One more partner adds its pass-up |
| Bonus.SecondTierLoop | app/src/main/java/com/lgsdiamond/bigtree/amway/AmBonus.kt:192-196 | The outer loop adds up the second-tier pass-ups |
| Bonus.ShortfallStep | app/src/main/java/com/lgsdiamond/bigtree/amway/AmBonus.kt:199-204 | One more first-tier partner takes off 1% of what it lacks of 1000, if anything |
| Bonus.ShortfallLoop | app/src/main/java/com/lgsdiamond/bigtree/amway/AmBonus.kt:199-204 | The loop takes off exactly the shortfall |
| Bonus.MdAmountLoop | app/src/main/java/com/lgsdiamond/bigtree/amway/AmBonus.kt:187-207 | The nested loops compute the monthly-depth amount: 0 unless qualified, otherwise the second-tier pass-ups less the shortfall |
| Bonus.PaysOnlyWhenQualified | app/src/main/java/com/lgsdiamond/bigtree/amway/AmBonus.kt:210-258 | No category pays an ABO that does not qualify for it, and emerald, diamond, diamond-plus, one-time and FAA never qualify |
| Bonus.SumAmountsSnoc | app/src/main/java/com/lgsdiamond/bigtree/amway/AmBonus.kt:16-17 | One more category adds its amount to the total |
| Bonus.StubsPayNothing | app/src/main/java/com/lgsdiamond/bigtree/amway/AmBonus.kt:210-258 | The five stub categories add nothing to the total |
| Bonus.TotalOfFour | app/src/main/java/com/lgsdiamond/bigtree/amway/AmBonus.kt:15-17 | `total` is the sum of the first, leadership, ruby and monthly-depth amounts |
| Bonus.SumOfFour | app/src/main/java/com/lgsdiamond/bigtree/amway/AmBonus.kt:15-17 | The four paying categories add up one after the other |
| Bonus.RecordAmount | app/src/main/java/com/lgsdiamond/bigtree/amway/AmBonus.kt:22-32 | `recordAmount` writes each of the nine bonus kinds into its own field of the record and leaves the month, the PIN and the volumes as they were |
| Bonus.RecordedTotal | app/src/main/java/com/lgsdiamond/bigtree/amway/AmBonus.kt:22-32 | The nine stored amounts add up to `total` |
| Bonus.GroupBonus | app/src/main/java/com/lgsdiamond/bigtree/amway/AmBonus.kt:79-80 | The group bonus is never negative; it is 0 for a group under 20 PV and 21% of the group from 1000 PV up |
| Bonus.GroupBonusSum | app/src/main/java/com/lgsdiamond/bigtree/amway/AmBonus.kt:73-75 | The group bonuses the loop takes off add up to a non-negative amount |
| Bonus.FirstBonus | app/src/main/java/com/lgsdiamond/bigtree/amway/AmBonus.kt:68-77 | The first bonus never exceeds the ABO's own group bonus, and equals it when the ABO has no ABO partner |
| Bonus.LeadershipQualified | app/src/main/java/com/lgsdiamond/bigtree/amway/AmBonus.kt:87-92 | Qualifying for leadership needs at least one independent partner, and two or more always qualify |
| Bonus.PurePassUp | app/src/main/java/com/lgsdiamond/bigtree/amway/AmBonus.kt:95-96 | 6% of the personal group reaches the minimum guarantee of 60 exactly when the personal group is at least 1000 |
| Bonus.LeadershipPassUpSum | app/src/main/java/com/lgsdiamond/bigtree/amway/AmBonus.kt:123 | When every listed independent partner qualifies, their pass-ups add up to at least 60 each |
| Bonus.LeadershipAmount | app/src/main/java/com/lgsdiamond/bigtree/amway/AmBonus.kt:116-133 | An ABO that does not qualify gets 0, and so does one with a single independent partner and a personal group under 400 |
| Bonus.RubyQualified | app/src/main/java/com/lgsdiamond/bigtree/amway/AmBonus.kt:139-141 | A ruby-qualified ABO has a group of at least 2000 plus 1000 per independent partner, and its own 6% reaches 60 |
| Bonus.RubyAmount | app/src/main/java/com/lgsdiamond/bigtree/amway/AmBonus.kt:143-158 | Ruby pays 0 to an ABO that does not qualify, and otherwise 2% of its personal volume plus the groups of its children that are not independent ABOs |
| Bonus.MdQualified | app/src/main/java/com/lgsdiamond/bigtree/amway/AmBonus.kt:164-166 | A monthly-depth-qualified ABO also qualifies for leadership, and the groups of its independent partners add up to at least 3000 |
| Bonus.SecondTier | app/src/main/java/com/lgsdiamond/bigtree/amway/AmBonus.kt:192-196 | The second tier adds nothing when no first-tier partner has an independent partner of its own |
| Bonus.Qualified | app/src/main/java/com/lgsdiamond/bigtree/amway/AmBonus.kt:61-254 | No stub category (emerald, diamond, diamond plus, one-time, FAA) qualifies, and a monthly-depth qualification implies leadership |
| Bonus.Amount | app/src/main/java/com/lgsdiamond/bigtree/amway/AmBonus.kt:61-258 | The five stub categories pay 0 |
| Pin.PinOrdinal | app/src/main/java/com/lgsdiamond/bigtree/amway/PIN.kt:3-15 | The ordinal of a title is its position in `PinTitle.values()` |
| Pin.OrdinalAt | app/src/main/java/com/lgsdiamond/bigtree/amway/PIN.kt:3-15 | The title at position i has ordinal i |
| Pin.CountOf | app/src/main/java/com/lgsdiamond/bigtree/amway/PIN.kt:222-231 | The count never exceeds the number of records |
| Pin.TrailingRun | app/src/main/java/com/lgsdiamond/bigtree/amway/PIN.kt:222-231 | The run is at most the count, every record in it carries the PIN, and the record before it does not |
| Pin.FirstAtOrAfter | app/src/main/java/com/lgsdiamond/bigtree/amway/PIN.kt:211-219 | The first record whose month is at or after the bound, and nothing when every month is before it |
| Pin.TallyFrom | app/src/main/java/com/lgsdiamond/bigtree/amway/PIN.kt:209-233 | The result satisfies 0 <= consequence <= count <= the number of records, and is (0, 0) when no record is at or after the bound |
| Pin.FindStart | app/src/main/java/com/lgsdiamond/bigtree/amway/PIN.kt:211-219 | The search loop gives the first record at or after the start month, or -1 |
| Pin.TallyStep | app/src/main/java/com/lgsdiamond/bigtree/amway/PIN.kt:224-231 | A matching record adds one to the count and extends the run; any other record resets the run to 0 |
| Pin.CountFrom | app/src/main/java/com/lgsdiamond/bigtree/amway/PIN.kt:222-233 | The counting loop gives the count and the trailing run of the records from the start index |
| Pin.CountPinWithin | app/src/main/java/com/lgsdiamond/bigtree/amway/PIN.kt:202-234 | The month loop moves the shared start object past `curMonth`, and the count starts from the first record at or after that moved month |
| Pin.SearchStartsAfter | app/src/main/java/com/lgsdiamond/bigtree/amway/PIN.kt:205-214 | A non-empty window leaves its start one month after `curMonth`, so the search finds only records after it |
| Pin.CountPinWithinPF | app/src/main/java/com/lgsdiamond/bigtree/amway/PIN.kt:191-194 | The count starts from the first record at or after the moved start; for a calendar month that is `curMonth + 1` |
| Pin.CountPinWithin12Month | app/src/main/java/com/lgsdiamond/bigtree/amway/PIN.kt:196-200 | The window M - 11..M leaves its start at M + 1, so only records after M are counted |
| Pin.IsQualified | app/src/main/java/com/lgsdiamond/bigtree/amway/PIN.kt:24-176 | `isQualified` as written: NONE always, SP and SPS by their conditions, GP by three SP records in the count, and no other title |
| Pin.TopPin | app/src/main/java/com/lgsdiamond/bigtree/amway/PIN.kt:180-189 | The title found after trying every title down from position i qualifies, and no title above it, up to i, does |
| Pin.HighestPin | app/src/main/java/com/lgsdiamond/bigtree/amway/PIN.kt:180-189 | The chosen title qualifies and no higher-ranked title does |
| Pin.Evaluate | app/src/main/java/com/lgsdiamond/bigtree/amway/PIN.kt:180-189 | `evaluate` settles on the highest-ranked title that qualifies; NONE always qualifies, so a title is always chosen |
| Pin.SpExcludesSps | app/src/main/java/com/lgsdiamond/bigtree/amway/PIN.kt:29-49 | SP and SPS never both hold; SPS needs exactly one independent partner |
| Pin.OnlyLowTitles | app/src/main/java/com/lgsdiamond/bigtree/amway/PIN.kt:62-175 | PT and every title after it never qualify: the value of PT's `when` is discarded |
| Pin.GpNeedsLaterRecords | app/src/main/java/com/lgsdiamond/bigtree/amway/PIN.kt:50-57 | Since the count starts after M, GP never holds when no record is later than M |
| Pin.LeadershipMakesSp | app/src/main/java/com/lgsdiamond/bigtree/amway/PIN.kt:29-49 | An ABO that qualifies for leadership is SP and not SPS |
| Pin.MdMakesLeadership | app/src/main/java/com/lgsdiamond/bigtree/amway/AmBonus.kt:165-166 | An ABO that qualifies for monthly depth also qualifies for leadership |
| Pin.SpQualified | app/src/main/java/com/lgsdiamond/bigtree/amway/PIN.kt:29-42 | Every ABO that qualifies for leadership is SP |
| Pin.SpsQualified | app/src/main/java/com/lgsdiamond/bigtree/amway/PIN.kt:43-49 | An SPS is never SP and never qualifies for leadership |
| AmNodes.MeasureLevel | app/src/main/java/com/lgsdiamond/bigtree/tree/AmNode.kt:45-51 | `measureLevel` is the start level plus the number of steps from the node up to its root; a root gets the start level back |
| AmNodes.ContainsSponsorNode | app/src/main/java/com/lgsdiamond/bigtree/tree/AmNode.kt:99-103 | `containsSponsorNode(s)` holds exactly when `s` is the node itself or one of its ancestors |
| AmNodes.CalculateNodeCount | app/src/main/java/com/lgsdiamond/bigtree/tree/AmNode.kt:180-189 | `calculateNodeCount` returns the size of the subtree and leaves every node of that subtree holding its own subtree size; counts outside it are untouched |
| AmNodes.NotifyParentNodeCountChanged | app/src/main/java/com/lgsdiamond/bigtree/tree/AmNode.kt:172-178 | Climbing to the root and recounting leaves every node of the whole tree holding its subtree size, and changes no count outside that tree |
| AmNodes.AddMemberNode | app/src/main/java/com/lgsdiamond/bigtree/tree/AmNode.kt:32-43 | `addMemberNode` makes the detached node the last child of the parent, adds its group to the parent and every ancestor, recounts the tree, and keeps the forest, the rollup and the ABO sponsors |
| AmNodes.AttachMember | app/src/main/java/com/lgsdiamond/bigtree/tree/AmNode.kt:33-35 | `addChild` followed by `addGroupToSponsor`: the links change only at the parent and the child, the ancestors gain the child's group, and the root is unchanged |
| AmNodes.ChainKept | app/src/main/java/com/lgsdiamond/bigtree/tree/AmNode.kt:33 | Linking a node later than `x` leaves the ancestors and the root of `x` unchanged |
| AmNodes.SponsorsUpAttached | app/src/main/java/com/lgsdiamond/bigtree/tree/AmNode.kt:33-35 | Hanging a node under an ABO keeps every step up from the node and from the parent on ABOs |
| AmNodes.AttachRollup | app/src/main/java/com/lgsdiamond/bigtree/tree/AmNode.kt:33-35 | Attaching a node and adding its group to every ancestor keeps group volumes equal to personal plus the children's groups |
| AmNodes.RemoveFirst | app/src/main/java/com/lgsdiamond/bigtree/tree/AmNode.kt:203 | `children.remove(c)` drops the first occurrence of `c` and leaves a list without `c` unchanged |
| AmNodes.RemoveFirstMembers | app/src/main/java/com/lgsdiamond/bigtree/tree/AmNode.kt:203 | In a list without repeats, removing `c` keeps every other entry and no repeats |
| AmNodes.RemoveMemberNode | app/src/main/java/com/lgsdiamond/bigtree/tree/AmNode.kt:201-210 | `removeMemberNode` clears the child's parent and drops it from the child list, recounts the tree, and keeps the two-way links and the ABO sponsors |
| AmNodes.DetachChild | app/src/main/java/com/lgsdiamond/bigtree/tree/AmNode.kt:202-203 | Clearing a child's parent and dropping it from the parent's list keeps the forest well-formed and the two-way links |
| AmNodes.SumOverRemove | app/src/main/java/com/lgsdiamond/bigtree/tree/AmNode.kt:203 | Taking a child out of a child list takes its group out of the sum over that list |
| AmNodes.RemovalKeepsVolume | app/src/main/java/com/lgsdiamond/bigtree/tree/AmNode.kt:201-210 | After removal the parent still counts the removed child's group; when that group is non-zero the rollup no longer holds, because the source never subtracts it |
| AmNodes.RebasedNoChange | app/src/main/java/com/lgsdiamond/bigtree/tree/AmNode.kt:53-56 | Right after `resetBase` a node's group change is zero and an ABO's bonus-total change is zero |
| AmNodes.ResetTreeBase | app/src/main/java/com/lgsdiamond/bigtree/tree/AmNode.kt:53-56 | `resetBase` gives every node of the subtree a new base (its current group and, for an ABO, its bonus total) and leaves every other base as it was |
| AmNodes.ResetChildrenBase | app/src/main/java/com/lgsdiamond/bigtree/tree/AmNode.kt:55 | The loop over the children rebases every node strictly below the node and nothing else |
| AmNodes.ResetChildAt | app/src/main/java/com/lgsdiamond/bigtree/tree/AmNode.kt:55 | One turn of the children loop rebases the subtree of one more child |
| AmNodes.Node2Values | app/src/main/java/com/lgsdiamond/bigtree/tree/AmNode.kt:106-115 | `node2values` stores the class ordinal, stamp, name and personal volume of the member, and the sponsor's stamp or 0 for a root |
| AmNodes.RowsOf | app/src/main/java/com/lgsdiamond/bigtree/tree/AmNode.kt:117-120 | One row per listed node |
| AmNodes.RowsOfAt | app/src/main/java/com/lgsdiamond/bigtree/tree/AmNode.kt:117-120 | Row `k` of a listing is the row of node `k` |
| AmNodes.RowsOfConcat | app/src/main/java/com/lgsdiamond/bigtree/tree/AmNode.kt:117-120 | The rows of two listings joined are the rows of each, joined |
| AmNodes.AddUpContentValues | app/src/main/java/com/lgsdiamond/bigtree/tree/AmNode.kt:117-120 | `addUpContentValues` appends the rows of the node's subtree in pre-order after the rows already in the list |
| AmNodes.AddUpChildren | app/src/main/java/com/lgsdiamond/bigtree/tree/AmNode.kt:119 | The loop over the children appends the rows of each child's subtree in turn |
| AmNodes.SubtreeRows | app/src/main/java/com/lgsdiamond/bigtree/tree/AmNode.kt:117-120 | The rows of a subtree are the row of its top node followed by those of the children's subtrees |
| AmNodes.RowsStep | app/src/main/java/com/lgsdiamond/bigtree/tree/AmNode.kt:119 | One more child's subtree extends the rows of the children before it |
| AmNodes.SubtreeWithin | app/src/main/java/com/lgsdiamond/bigtree/tree/AmNode.kt:119 | The subtree of a child lies inside the subtree of its parent |
| AmNodes.NatText | app/src/main/java/com/lgsdiamond/bigtree/tree/AmNode.kt:62 | The decimal text of a counter is never empty |
| AmNodes.Handles | app/src/main/java/com/lgsdiamond/bigtree/tree/AmNode.kt:61-63 | The handles of the nodes created in order, consecutive from the first |
| AmNodes.SponsorsUpKept | app/src/main/java/com/lgsdiamond/bigtree/tree/AmNode.kt:62 | Appending nodes keeps every step up from an existing node on ABOs |
| AmNodes.GrownByOne | app/src/main/java/com/lgsdiamond/bigtree/tree/AmNode.kt:62 | `newMember` followed by `addMemberNode` under `x` appends one default ABO (links, member, 20 PV, zero base, collapsed, level unset) hung last under `x`, credits 20 PV to `x` and each of its ancestors and nothing else, and keeps the counts outside the tree of `x` |
| AmNodes.AddNewAbo | app/src/main/java/com/lgsdiamond/bigtree/tree/AmNode.kt:62 | `addMemberNode(AmNode(ABO(name)))`: the network grows by exactly one default ABO with the next stamp, the last child of the node; exactly the node and its ancestors gain 20 PV; the tree is recounted and the rollup and ABO sponsors are kept |
| AmNodes.AppendedTrans | app/src/main/java/com/lgsdiamond/bigtree/tree/AmNode.kt:61-63 | Appending new nodes by two plans in turn appends them by both plans, stamps running on |
| AmNodes.KidsSplit | app/src/main/java/com/lgsdiamond/bigtree/tree/AmNode.kt:61-63 | The nodes hung under a node by two plans in turn are those of the first plan, then those of the second |
| AmNodes.KidsBeyond | app/src/main/java/com/lgsdiamond/bigtree/tree/AmNode.kt:61-63 | A plan hangs nothing under a node created after all of its entries |
| AmNodes.KidsRepeat | app/src/main/java/com/lgsdiamond/bigtree/tree/AmNode.kt:61-63 | `count` nodes hung under `x` become, in order, its last children, and nothing is hung under any other node |
| AmNodes.HungTrans | app/src/main/java/com/lgsdiamond/bigtree/tree/AmNode.kt:61-63 | Two growths in turn extend every child list by the new nodes of both, in order |
| AmNodes.SameTree | app/src/main/java/com/lgsdiamond/bigtree/tree/AmNode.kt:79 | A node freshly hung under `x` has the same old ancestors and the same root as `x` |
| AmNodes.CreditedTrans | app/src/main/java/com/lgsdiamond/bigtree/tree/AmNode.kt:79 | Crediting the ancestors of `x`, then those of a node hung under `x`, credits the old ancestors of `x` with both |
| AmNodes.RecountedTrans | app/src/main/java/com/lgsdiamond/bigtree/tree/AmNode.kt:79 | Counts outside the tree of `x` are kept over two growths within that tree |
| AmNodes.GrownTrans | app/src/main/java/com/lgsdiamond/bigtree/tree/AmNode.kt:75-80 | Growing below `x`, then below `x` or a node just hung under it, is one growth below `x` by both plans |
| AmNodes.GrownNothing | app/src/main/java/com/lgsdiamond/bigtree/tree/AmNode.kt:61 | A loop that has not turned yet has grown nothing |
| AmNodes.AbosStep | app/src/main/java/com/lgsdiamond/bigtree/tree/AmNode.kt:61-63 | Each turn of the loop of `addNetwork3`/`addNetwork6` extends the growth by the ABO it numbers, and every new node holds the default PV |
| AmNodes.AbosShape | app/src/main/java/com/lgsdiamond/bigtree/tree/AmNode.kt:61-63 | The ABOs that loop adds are the node's last children, in order, and are leaves |
| AmNodes.AddAbos | app/src/main/java/com/lgsdiamond/bigtree/tree/AmNode.kt:61-63 | The loop of `addNetwork3`/`addNetwork6` grows the network by `count` default ABOs `prefix1`, `prefix2`, ... with consecutive stamps, the last children of the node and leaves; the node and each ancestor gain `count` × 20 PV; with `count` 0 nothing changes |
| AmNodes.AbosDone | app/src/main/java/com/lgsdiamond/bigtree/tree/AmNode.kt:61-63 | Once all turns are done the loop has grown the network by all `count` ABOs |
| AmNodes.AddNumberedAbo | app/src/main/java/com/lgsdiamond/bigtree/tree/AmNode.kt:62 | One turn of that loop adds the ABO numbered `i + 1` and keeps what the loop promises |
| AmNodes.BranchGrown | app/src/main/java/com/lgsdiamond/bigtree/tree/AmNode.kt:76-80 | A head under `x` followed by its `subCount` ABOs is one growth below `x`, by the branch plan |
| AmNodes.AddBranch | app/src/main/java/com/lgsdiamond/bigtree/tree/AmNode.kt:76-80 | One branch of `addNetwork64`: a head ABO under the node and `subCount` default ABOs under the head, as one growth below the node; the node's member is unchanged |
| AmNodes.BlocksProduct | app/src/main/java/com/lgsdiamond/bigtree/tree/AmNode.kt:75-81 | `count` branches of `width` nodes are `count × width` nodes |
| AmNodes.TwoLevelsStep | app/src/main/java/com/lgsdiamond/bigtree/tree/AmNode.kt:75-81 | Each branch extends the growth by its plan and names and adds `1 + subCount` nodes |
| AmNodes.AddNumberedBranch | app/src/main/java/com/lgsdiamond/bigtree/tree/AmNode.kt:76-80 | One turn of the outer loop of `addNetwork64` adds the branch numbered `i + 1` and keeps what the loop promises |
| AmNodes.BranchesDone | app/src/main/java/com/lgsdiamond/bigtree/tree/AmNode.kt:75-81 | Once all turns are done the outer loop has added `count × (1 + subCount)` nodes as one growth |
| AmNodes.AddTwoLevels | app/src/main/java/com/lgsdiamond/bigtree/tree/AmNode.kt:75-81 | The outer loop of `addNetwork64` adds `count` branches of `1 + subCount` default ABOs (`A-i` under the node, `B-ij` under `A-i`), `count × (1 + subCount)` nodes in all, as one growth below the node |
| AmNodes.AbosOk | app/src/main/java/com/lgsdiamond/bigtree/tree/AmNode.kt:61-63 | After default ABOs are added the book is still readable by the bonus rules |
| AmNodes.NoIndependentPartners | app/src/main/java/com/lgsdiamond/bigtree/tree/AmNode.kt:66-71 | A node with only new default ABOs below it has no independent partners |
| AmNodes.NoneIndependent | app/src/main/java/com/lgsdiamond/bigtree/tree/AmNode.kt:66-71 | A list none of whose members is independent has no independent member |
| AmNodes.AddNetwork3 | app/src/main/java/com/lgsdiamond/bigtree/tree/AmNode.kt:59-64 | `addNetwork3` appends `A-1`..`A-3` as default ABOs, the node's last children and leaves, each new node holding 20 PV; the old nodes keep their members, volumes and display flags; the node and its ancestors gain 60 PV |
| AmNodes.AddNetwork6 | app/src/main/java/com/lgsdiamond/bigtree/tree/AmNode.kt:66-71 | `addNetwork6` appends `A-1`..`A-6` the same way; on a childless node the result has no independent partners |
| AmNodes.AddNetwork64 | app/src/main/java/com/lgsdiamond/bigtree/tree/AmNode.kt:73-82 | `addNetwork64` adds 30 members (6 branches `A-i`, each with `B-i1`..`B-i4`) as one growth below the node |
| AmNodes.DeepBranchGrown | app/src/main/java/com/lgsdiamond/bigtree/tree/AmNode.kt:87-95 | A head `A-i` under `x` followed by its two levels is one growth below `x` by the deep-branch plan |
| AmNodes.AddDeepBranch | app/src/main/java/com/lgsdiamond/bigtree/tree/AmNode.kt:87-95 | One branch of `addNetwork642` adds 13 members (`A-i`, four `B-ij`, two `C-ijk` under each) as one growth below the node |
| AmNodes.DeepStep | app/src/main/java/com/lgsdiamond/bigtree/tree/AmNode.kt:86-96 | Each deep branch extends the growth by its 13 nodes |
| AmNodes.AddNumberedDeepBranch | app/src/main/java/com/lgsdiamond/bigtree/tree/AmNode.kt:86-96 | One turn of the outer loop of `addNetwork642` adds the branch `A-(i+1)` and keeps what the loop promises |
| AmNodes.AddNetwork642 | app/src/main/java/com/lgsdiamond/bigtree/tree/AmNode.kt:84-97 | `addNetwork642` adds 78 members as one growth below the node |
| AmNodes.Network642Volume | app/src/main/java/com/lgsdiamond/bigtree/tree/AmNode.kt:84-97 | The 6-4-2 plan adds 1560 PV (78 default members) to the group of the node and of every ancestor |
| AmNodes.AddMemberNodes | app/src/main/java/com/lgsdiamond/bigtree/tree/AmNode.kt:195-199 | `addMemberNodes` attaches each listed detached node in turn: they end up, in order, after the old children, and their groups reach every ancestor |
| AmNodes.AttachingStart | app/src/main/java/com/lgsdiamond/bigtree/tree/AmNode.kt:196 | Before the first turn nothing is attached yet |
| AmNodes.AttachingDone | app/src/main/java/com/lgsdiamond/bigtree/tree/AmNode.kt:196-198 | After the last turn every listed node is attached |
| AmNodes.AttachNext | app/src/main/java/com/lgsdiamond/bigtree/tree/AmNode.kt:197 | One turn attaches the next listed node |
| AmNodes.AttachedNext | app/src/main/java/com/lgsdiamond/bigtree/tree/AmNode.kt:197 | Attaching the next node extends the attached prefix by one |
| AmNodes.AttachStep | app/src/main/java/com/lgsdiamond/bigtree/tree/AmNode.kt:197 | The next node to attach is still detached and keeps its original group |
| AmNodes.Values2Member | app/src/main/java/com/lgsdiamond/bigtree/tree/AmNode.kt:127-140 | `values2member` rebuilds a detached member of the class the ordinal names, with the row's stamp, name and personal volume; the constructor still consumes one counter stamp, and the new node is collapsed, has an unset level, a count of 1 and a zero base; its own row reads back as the input with sponsor 0, and the sponsor stamp is returned |
| Display.Elems | app/src/main/java/com/lgsdiamond/bigtree/tree/RecyclerTreeView.kt:233 | The set a list holds, as `removeAll` reads its argument |
| Display.Without | app/src/main/java/com/lgsdiamond/bigtree/tree/RecyclerTreeView.kt:233 | `removeAll` never lengthens the list |
| Display.WithoutMembers | app/src/main/java/com/lgsdiamond/bigtree/tree/RecyclerTreeView.kt:233 | After `removeAll(s)` the list holds exactly the entries of the old list that are not in `s` |
| Display.WithoutConcat | app/src/main/java/com/lgsdiamond/bigtree/tree/RecyclerTreeView.kt:233 | `removeAll` works on each part of a joined list separately |
| Display.WithoutTwice | app/src/main/java/com/lgsdiamond/bigtree/tree/RecyclerTreeView.kt:233-238 | Two `removeAll` calls in a row remove the union of both sets |
| Display.WithoutNothing | app/src/main/java/com/lgsdiamond/bigtree/tree/RecyclerTreeView.kt:233 | `removeAll` of entries the list does not hold leaves it as it is |
| Display.WithoutEverything | app/src/main/java/com/lgsdiamond/bigtree/tree/RecyclerTreeView.kt:233 | `removeAll` of a set covering the list empties it |
| Display.CutOut | app/src/main/java/com/lgsdiamond/bigtree/tree/RecyclerTreeView.kt:233-238 | In a list without repeats, removing the nodes of a contiguous run cuts out exactly that run |
| Display.FlattenSame | app/src/main/java/com/lgsdiamond/bigtree/tree/RecyclerTreeView.kt:133-139 | The listing reads the expanded flags of the nodes it lists and of no other |
| Display.FlattenAround | app/src/main/java/com/lgsdiamond/bigtree/tree/RecyclerTreeView.kt:133-139 | Where a node is listed, the listing with it collapsed and with it expanded differ only by what lies under it, at the same place |
| Display.ExpandInPlace | app/src/main/java/com/lgsdiamond/bigtree/tree/RecyclerTreeView.kt:189-192 | Expanding the collapsed node shown at row `k` inserts its children's listing right after row `k` and leaves the rest in place |
| Display.CollapseInPlace | app/src/main/java/com/lgsdiamond/bigtree/tree/RecyclerTreeView.kt:189-194 | Collapsing an expanded node removes exactly what was listed under it, whatever then happens to the flags of those nodes |
| Display.InsertAt | app/src/main/java/com/lgsdiamond/bigtree/tree/RecyclerTreeView.kt:218 | `add(i, x)` puts `x` at position `i` and lengthens the list by one |
| Display.TreeAdapter.constructor | app/src/main/java/com/lgsdiamond/bigtree/tree/RecyclerTreeView.kt:129-131 | A new adapter shows the pre-order listing of its trees, expanded nodes opened, with `toCollapseChild` off |
| Display.TreeAdapter.FindDisplayNodes | app/src/main/java/com/lgsdiamond/bigtree/tree/RecyclerTreeView.kt:133-139 | `findDisplayNodes` appends each node followed by the listing of its children when it is expanded |
| Display.TreeAdapter.Refresh | app/src/main/java/com/lgsdiamond/bigtree/tree/RecyclerTreeView.kt:278-282 | `refresh` makes the list exactly the listing of the given trees |
| Display.TreeAdapter.ToggleItemView | app/src/main/java/com/lgsdiamond/bigtree/tree/RecyclerTreeView.kt:170-196 | A click that is too soon, consumed, on a leaf or on a locked node changes nothing; expanding sets only the node's flag and inserts its open descendants right after it; collapsing clears the node's flag, clears the flags of its listed descendants exactly when `toCollapseChild` is set and keeps every other flag, and removes those descendants from the list; either way the list stays the listing of the roots under the new flags |
| Display.TreeAdapter.AddChildNodes | app/src/main/java/com/lgsdiamond/bigtree/tree/RecyclerTreeView.kt:214-226 | `addChildNodes` inserts the listing of the node's children at `startIndex`, marks the node expanded and returns the number inserted |
| Display.TreeAdapter.AddChildAt | app/src/main/java/com/lgsdiamond/bigtree/tree/RecyclerTreeView.kt:217-221 | One turn inserts the next child and the listing under it after those already inserted |
| Display.TreeAdapter.InsertSubtree | app/src/main/java/com/lgsdiamond/bigtree/tree/RecyclerTreeView.kt:218-220 | A child goes in at the position, followed by what is shown under it; the count is one plus that |
| Display.TreeAdapter.RemoveChildNodes | app/src/main/java/com/lgsdiamond/bigtree/tree/RecyclerTreeView.kt:228-244 | `removeChildNodes` removes the children's listing, returns its size, toggles the node only when asked and it is not a leaf, and with `toCollapseChild` collapses exactly the expanded nodes removed |
| Display.TreeAdapter.RemoveEach | app/src/main/java/com/lgsdiamond/bigtree/tree/RecyclerTreeView.kt:233-240 | The loop over the children removes the children and everything shown under them, and updates the flags of exactly those nodes |
| Display.TreeAdapter.RemoveChildAt | app/src/main/java/com/lgsdiamond/bigtree/tree/RecyclerTreeView.kt:234-239 | One turn of that loop extends what was removed by one child's listing |
| Display.TreeAdapter.RemoveUnder | app/src/main/java/com/lgsdiamond/bigtree/tree/RecyclerTreeView.kt:235-238 | For an expanded child, what is shown below it is removed and, with `toCollapseChild`, the child and its expanded descendants collapse |
| Display.ChildrenListed | app/src/main/java/com/lgsdiamond/bigtree/tree/RecyclerTreeView.kt:133-139 | Every node of a list appears in its listing |
| Display.RemoveStepKeeps | app/src/main/java/com/lgsdiamond/bigtree/tree/RecyclerTreeView.kt:234-239 | One turn of the removal loop keeps its invariant: the list lacks the children and everything listed under the first `k + 1` of them, and exactly those flags were updated |
| Display.RemoveStepDisplay | app/src/main/java/com/lgsdiamond/bigtree/tree/RecyclerTreeView.kt:233-238 | Removing what lies below one more child extends what has been removed by that child's listing |
| Display.CollapsedFlags | app/src/main/java/com/lgsdiamond/bigtree/tree/RecyclerTreeView.kt:236-238 | Folding up a child, then everything shown below it, updates exactly those flags |
| Display.FlagsCompose | app/src/main/java/com/lgsdiamond/bigtree/tree/RecyclerTreeView.kt:234-239 | Flag updates on two removed sets compose to one update on their union |
| Display.BelowSame | app/src/main/java/com/lgsdiamond/bigtree/tree/RecyclerTreeView.kt:133-139 | What lies under a node depends only on the flags of the node and of its descendants |
| Display.SiblingsApart | app/src/main/java/com/lgsdiamond/bigtree/tree/RecyclerTreeView.kt:217-221 | The listing of one child shares no node with the listings of the earlier siblings |
| AmDb.ToDbField | app/src/main/java/com/lgsdiamond/bigtree/amway/AmDB.kt:20-27 | `toDBField` maps Long to INT, Int to SMALLINT, String to TEXT, Float to FLOAT and Double to DOUBLE after the column name and a blank, and is empty exactly for a type `when` does not know |
| AmDb.DeclarationParts | app/src/main/java/com/lgsdiamond/bigtree/amway/AmDB.kt:20-27 | A declaration splits back into the column name with its blank and the SQL type |
| AmDb.Fields | app/src/main/java/com/lgsdiamond/bigtree/amway/AmDB.kt:32-38 | One declaration per column |
| AmDb.ToSqlCreate | app/src/main/java/com/lgsdiamond/bigtree/amway/AmDB.kt:30-41 | `toSqlCreate` builds `CREATE TABLE t (` then the declarations separated by a comma and a blank, then `);` |
| AmDb.AppendFields | app/src/main/java/com/lgsdiamond/bigtree/amway/AmDB.kt:33-38 | The first declaration, then each further one after a comma and a blank, appended to the command: exactly `Joined` |
| AmDb.ExtendCommand | app/src/main/java/com/lgsdiamond/bigtree/amway/AmDB.kt:36-38 | One turn of the loop appends the separator and the next declaration |
| AmDb.JoinedSnoc | app/src/main/java/com/lgsdiamond/bigtree/amway/AmDB.kt:36-38 | Joining one more declaration appends the separator and that declaration |
| AmDb.MemberTableSql | app/src/main/java/com/lgsdiamond/bigtree/amway/AmDB.kt:14-41 | The member table is created by the exact statement naming the five columns in declaration order with the SQL types INT, SMALLINT, TEXT, FLOAT and INT |
| AmDb.MemberFields | app/src/main/java/com/lgsdiamond/bigtree/amway/AmDB.kt:14-27 | The five member-table declarations, column by column |
| AmDb.FindRow | app/src/main/java/com/lgsdiamond/bigtree/amway/AmMember.kt:39-42 | `findSponsorByID` read on the rows finds, if anything, a row no later than the start carrying the stamp |
| AmDb.Replay | app/src/main/java/com/lgsdiamond/bigtree/amway/AmDB.kt:285-299 | A successful replay links every row, and each link points to an earlier row |
| AmDb.ReplayRow | app/src/main/java/com/lgsdiamond/bigtree/amway/AmDB.kt:286-298 | Replaying a row keeps the links of the rows before it and adds one backward link |
| AmDb.ReplayLinks | app/src/main/java/com/lgsdiamond/bigtree/amway/AmDB.kt:285-299 | On success every row names a class, a row is a root exactly when its sponsor stamp is zero, and any other row is linked to an earlier ABO row carrying its sponsor stamp |
| AmDb.RowLink | app/src/main/java/com/lgsdiamond/bigtree/amway/AmDB.kt:286-298 | The row the replay adds is linked as the previous line says |
| AmDb.FirstRowAborts | app/src/main/java/com/lgsdiamond/bigtree/amway/AmDB.kt:291-292 | A first row with a sponsor makes the load give up, since there is no previous member to search from |
| AmDb.StoppedStays | app/src/main/java/com/lgsdiamond/bigtree/amway/AmDB.kt:300-303 | Once the replay has stopped, the later rows are never looked at and the outcome stays the same |
| AmDb.RootsAt | app/src/main/java/com/lgsdiamond/bigtree/amway/AmDB.kt:288-289 | The roots collected are no more than the rows |
| AmDb.RootsAtMembers | app/src/main/java/com/lgsdiamond/bigtree/amway/AmDB.kt:288-289 | The roots are exactly the nodes of the rows without a sponsor, in row order |
| AmDb.RootsAtSnoc | app/src/main/java/com/lgsdiamond/bigtree/amway/AmDB.kt:288-289 | One more row adds its node to the roots exactly when it has no sponsor |
| AmDb.FindMirror | app/src/main/java/com/lgsdiamond/bigtree/amway/AmDB.kt:294 | On nodes that mirror the rows, `findSponsorByID` finds the node of the row the row-level search finds, or nothing when it finds nothing |
| AmDb.SponsoredRows | app/src/main/java/com/lgsdiamond/bigtree/amway/AmDB.kt:219 | Where every sponsor is an ABO, every listing can be written out |
| AmDb.SavedStep | app/src/main/java/com/lgsdiamond/bigtree/amway/AmDB.kt:219 | Writing one more tree appends the rows of its whole subtree |
| AmDb.WriteNetworkEntries | app/src/main/java/com/lgsdiamond/bigtree/amway/AmDB.kt:214-219 | `writeNetworkEntries` produces the rows of every tree of `nodes`, each in pre-order, one tree after the other |
| AmDb.WriteTree | app/src/main/java/com/lgsdiamond/bigtree/amway/AmDB.kt:219 | One turn of the write loop appends the rows of the next root's whole tree, so the table holds the rows of the trees so far, all with ABO sponsors |
| AmDb.LinksOf | app/src/main/java/com/lgsdiamond/bigtree/amway/AmDB.kt:285-299 | One link per listed node |
| AmDb.PreOrderParent | app/src/main/java/com/lgsdiamond/bigtree/amway/AmDB.kt:294 | In a pre-order listing of whole trees, a node's parent is listed before it |
| AmDb.RootLink | app/src/main/java/com/lgsdiamond/bigtree/amway/AmDB.kt:288 | A root's link is empty |
| AmDb.PreOrderLinks | app/src/main/java/com/lgsdiamond/bigtree/amway/AmDB.kt:285-299 | The links of a pre-order listing point backwards |
| AmDb.FindChain | app/src/main/java/com/lgsdiamond/bigtree/amway/AmDB.kt:294 | On the rows of a pre-order listing with distinct stamps, the search from the previous row for an ancestor's stamp finds that ancestor's row |
| AmDb.ReplayListing | app/src/main/java/com/lgsdiamond/bigtree/amway/AmDB.kt:285-299 | Replaying the rows of a pre-order listing of whole trees succeeds and links every row to its parent's row |
| AmDb.RowReplayed | app/src/main/java/com/lgsdiamond/bigtree/amway/AmDB.kt:286-298 | Row `k` of such a listing replays to the link of its node's parent |
| AmDb.ChildRowFound | app/src/main/java/com/lgsdiamond/bigtree/amway/AmDB.kt:290-296 | For a row whose node has a parent, the sponsor stamp is nonzero and the search finds the parent's row, an ABO |
| AmDb.LinkedRow | app/src/main/java/com/lgsdiamond/bigtree/amway/AmDB.kt:294-295 | A row whose class is known and whose search finds an ABO's row is linked to it |
| AmDb.ReplayRoundTrip | app/src/main/java/com/lgsdiamond/bigtree/amway/AmDB.kt:214-299 | Writing whole trees whose stamps are distinct and nonzero and whose sponsors are ABOs, then replaying the rows, succeeds; every row is linked to the row of its node's parent, the rows without a sponsor are exactly those of the roots, and the rows linked to each row list that node's children in their original order |
| AmDb.ReplayRows | app/src/main/java/com/lgsdiamond/bigtree/amway/AmDB.kt:285-299 | The replay loop reaches the outcome `Replay` describes, and every earlier node keeps its fields; on success the new nodes mirror the rows, carry their names and personal volumes, each rebuilt child list holds the rows linked to it in row order, and the roots come back in row order; on failure no roots; every parent stays an ABO |
| AmDb.ReplayRoots | app/src/main/java/com/lgsdiamond/bigtree/amway/AmDB.kt:286-298 | One turn replays row `k` and, when it is a root, adds its node to the roots |
| AmDb.ReplayStep | app/src/main/java/com/lgsdiamond/bigtree/amway/AmDB.kt:287-298 | Row `k` becomes the next node, then is linked as the replay says |
| AmDb.LinkRow | app/src/main/java/com/lgsdiamond/bigtree/amway/AmDB.kt:288-297 | With no sponsor stamp the node stays a root; otherwise it is attached under the found sponsor, or the load stops |
| AmDb.AttachRow | app/src/main/java/com/lgsdiamond/bigtree/amway/AmDB.kt:295 | `addMemberNode` of the new node under the sponsor's node extends the mirror by one link |
| AmDb.DecideLink | app/src/main/java/com/lgsdiamond/bigtree/amway/AmDB.kt:288-296 | A sponsor node is chosen exactly when the row is linked and has a sponsor stamp; it is the node of the linked row, and an ABO |
| AmDb.LookUpSponsor | app/src/main/java/com/lgsdiamond/bigtree/amway/AmDB.kt:294 | `findSponsorByID` from the previous row's node finds the node of the row the row-level search finds |
| AmDb.SearchedRow | app/src/main/java/com/lgsdiamond/bigtree/amway/AmDB.kt:294-296 | What the search from the previous row finds decides the row's outcome |
| AmDb.MirrorRoot | app/src/main/java/com/lgsdiamond/bigtree/amway/AmDB.kt:289 | Leaving the new node a root extends the mirror |
| AmDb.MirrorGrown | app/src/main/java/com/lgsdiamond/bigtree/amway/AmDB.kt:287 | Adding a node after the mirrored ones keeps the mirror |
| AmDb.MirrorAttached | app/src/main/java/com/lgsdiamond/bigtree/amway/AmDB.kt:295 | Linking the new node to the node of an earlier row extends the mirror |
| AmDb.ReadMemberEntries | app/src/main/java/com/lgsdiamond/bigtree/amway/AmDB.kt:253-308 | `MemberDBHelper.readNetworkEntries` returns the roots on success and null when the load gave up, and the network changes as the replay loop says (earlier nodes kept, rollup kept, new nodes mirroring the rows with their child lists in row order); a bad ordinal or a non-ABO sponsor escapes as an exception |
| AmDb.ReadRecordEntries | app/src/main/java/com/lgsdiamond/bigtree/amway/AmDB.kt:390-450 | `RecordDBHelper.readNetworkEntries` returns the roots on success and an empty list when the load gave up, and the network changes as the replay loop says (earlier nodes kept, rollup kept, new nodes mirroring the rows with their child lists in row order); a bad ordinal or a non-ABO sponsor escapes as an exception |
| AmDb.KeyName | app/src/main/java/com/lgsdiamond/bigtree/amway/AmDB.kt:14-18 | Every column name starts with `KEY_` |
| AmDb.KeyType | app/src/main/java/com/lgsdiamond/bigtree/amway/AmDB.kt:14-15 | Every key has a type `toDBField` knows, and exactly the stamp and the sponsor stamp are Long |
| AmDb.Joined | app/src/main/java/com/lgsdiamond/bigtree/amway/AmDB.kt:33-38 | The declarations joined with ", ": empty for none, the declaration itself for one, and otherwise as long as the declarations plus two per separator |
| AmDb.CreateTable | app/src/main/java/com/lgsdiamond/bigtree/amway/AmDB.kt:30-41 | The statement is `CREATE TABLE `, the table name, ` (`, the joined declarations and `);` |
| AmDb.MakeRowNode | app/src/main/java/com/lgsdiamond/bigtree/amway/AmDB.kt:287 | The row becomes a new detached node with the row's stamp, class, name and volume; the earlier nodes, the rollup, the sponsors, the mirror and the child lists so far are kept |
| AmDb.LinkedChildren | app/src/main/java/com/lgsdiamond/bigtree/amway/AmDB.kt:294-295 | The rows linked to row i are the listed nodes whose parent is node i, in listing order |
| AmDb.RoundTripChildren | app/src/main/java/com/lgsdiamond/bigtree/amway/AmDB.kt:214-299 | In the written listing, the rows linked to each row are exactly that node's children, in their original order |
| AmDb.RoundTripReplay | app/src/main/java/com/lgsdiamond/bigtree/amway/AmDB.kt:214-299 | Replaying the rows of whole trees written out, with distinct nonzero stamps and ABO sponsors, succeeds with the links the listing determines, and every row's sponsor is an ABO |
| AmDb.RoundTripLinks | app/src/main/java/com/lgsdiamond/bigtree/amway/AmDB.kt:285-299 | In whole trees written out, exactly the roots' rows have no link, and every other row links back to the earlier row of its node's parent |
| AmDb.RebuiltChildren | app/src/main/java/com/lgsdiamond/bigtree/amway/AmDB.kt:285-299 | Each replayed child list is the original child list with every child replaced by the handle of its row |

## Left out

**Outside the model**
- Android UI, layout and I/O are not part of this model: the screens and fragments, `WideTreeView.kt` (the Buchheim–Walker layout in `Double` arithmetic), `NodeBinder.kt` and `lgsutility`.
- SQLite is not modelled. Opening and closing the database, transactions, dropping and renaming tables, cursors and `insert` are left out. A table is the list of its rows (`MemberRow`), and `WriteNetworkEntries` returns the rows it would insert.
- IEEE floating point is not modelled; volumes, rates and amounts are exact reals. Display formatting is left out: `to1000Won`, `toString`, `toTitle`, `toDesc` and the bonus texts.
- Observers and notifications are left out: the `treeNodeObservers` calls in `addMemberNode`/`removeMemberNode`, `notifyItemRange*`, `notifyDataSetChanged`, `DiffUtil` and the `Bundle` payloads.
- `AmNode`'s layout fields are left out: x, y, width and height.
- Global singletons are parameters or state rather than globals.
  - The clock-seeded `contStampID` counter is the network's `nextStamp`, whose first value is a constructor parameter.
  - `AmNode.focused` and the name counters are left out.
- The click debounce and the listener of `toggleItemView` are parameters of `Display.TreeAdapter.ToggleItemView`. So is the lock: the `tooSoon`, `consumed` and `locked` flags stand for `System.currentTimeMillis`, `onTreeNodeListener.onClick` and `isLocked`.
- `CurrentRecord` (a read-through view over the current volumes and bonuses) is not part of this model.
- `DBKeysMonthlyRecord` is not modelled separately. Its keys, types, `toDBField` and `toSqlCreate` are identical to `DBKeysMembers`, so `AmDb.ToSqlCreate` covers both.
- The counter `countMonth` in `countPINWithin` is computed and never read, so only its side effect on the shared start object is modelled.
- `Entities.MonthlyRecord` holds its month by value. The source's `MonthlyRecord` keeps a reference to the `AmMonth` object it was built from (AmDB.kt:76, AmMember.kt:145), so a later change to that object would show through the record. That aliasing is not modelled.
- `AmDb.DecideLink`: when a row's sponsor is not an ABO, the model reports `Crashed` with the new node still detached. In the source, `addMemberNode` has already run `addChild` (AmNode.kt:32) when the cast in `addGroupToSponsor` throws (AmNode.kt:34), so the node is attached as the exception leaves the load. Nothing reads the network after that exception, so the difference is not observable.
- Node names are built with `AmNodes.NatText`, decimal digits without a sign, because every counter in the name templates is positive.

**Narrower requirements than the source**
- `MemberNetwork.Network`: a parent must have a smaller handle than its child, which keeps the links acyclic. The source never attaches a node to one created after it, but it does not enforce this. `TreeNodes.AddChild`, `AmNodes.AddMemberNode` and `AmNodes.AddMemberNodes` require it (`p < c`).
- `TreeNodes.AddChild`: attaching a node that is already listed as someone's child is not modelled.
- `TreeNodes.SetChildList` requires the new list to have no repeats, and each entry to be either a child of the node already or listed nowhere.
- `AmNodes.RemoveMemberNode` requires `c` to hang under `p` (`net.parent[c] == Some(p)`). Its only caller passes the node's own parent (NetworkFragment.kt:309-318), so removing a node from a parent it does not hang under is not modelled.
- `AmNodes.AddMemberNodes` requires the listed nodes to be detached and distinct. Attaching the same node twice in one call is not modelled.
- `Pin.CountPinWithin` requires the window start and the current month to be different objects. Every caller in the source builds a fresh start object.
- Bonus, partner and title getters require `Partners.Ok`: every ABO's group is at least -0.1. Below that, `getFirstBonusRate` finds no table row and throws, and the model does not represent that exception.
- The getters that cast `sponsor` to `ABO` require every parent to be an ABO (`Sponsored`, `SponsorsUp`). The source throws a `ClassCastException` otherwise, and the model does not represent that exception.
- `AmDb.WriteNetworkEntries` requires every parent to be an ABO, for the same cast.
- `Calendar.IterateRange` requires the range's start and `endInclusive` to be different objects. On a range `x..x` built on one object, the cursor `current` is the end object itself and moves with it, so `hasNext` never turns false and the source loops forever (AmSystem.kt:19-35).
- `Calendar.IterateRange` requires `stepMonth >= 1`. With a step of 0 or less the cursor never passes the end whenever the start is not after it, so the source loops forever.

**Weaker or partial contracts**
- `TreeNodes.SetChildList` keeps the forest shape but not the two-way links. The old children keep their stale parent links, as in the source, so `Linked` is not claimed afterwards.
- `AmNodes.RemoveMemberNode` does not keep the volume rollup, because the source does not subtract the removed group from the ancestors. `AmNodes.RemovalKeepsVolume` states the resulting mismatch.
- `Bonus.FirstBonusExample` checks the 1200/500 example on a two-member network. The 6-4-2 figures are proved as growth: `AmNodes.Network642Volume` gives +1560 PV on the node and every ancestor. The resulting group of 1580 on a default 20-PV ABO is not restated.
