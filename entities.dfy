/** The enumerations and records shared by the member network: the member
    classes, the PIN titles in rank order, and the monthly record an ABO keeps. */
module Entities {
  import opened Wrappers
  import opened Calendar

  /** `AmMemberClass`. */
  datatype MemberClass = Abo | OnMember | OffMember

  /** The enum's `ordinal`, as stored in a database row. */
  function ClassOrdinal(c: MemberClass): nat
  {
    match c
    case Abo => 0
    case OnMember => 1
    case OffMember => 2
  }

  /** `AmMemberClass.values()[ordinal]`; `None` where the index is out of bounds. */
  function ClassOfOrdinal(ordinal: int): (r: Option<MemberClass>)
    ensures r.Some? <==> 0 <= ordinal < 3
    ensures r.Some? ==> ClassOrdinal(r.value) == ordinal
  {
    if ordinal == 0 then Some(Abo)
    else if ordinal == 1 then Some(OnMember)
    else if ordinal == 2 then Some(OffMember)
    else None
  }

  /** Storing a class as its ordinal and reading it back gives the class. */
  lemma ClassOrdinalRoundTrip(c: MemberClass)
    ensures ClassOfOrdinal(ClassOrdinal(c)) == Some(c)
  {
  }

  /** `PinTitle`, lowest rank first. */
  datatype PinTitle =
    | NoPin | SP | SPS | GP | PT | FPT | RB | FRB | SA | FSA | EM | FEM
    | DIA | FDIA | EDC | FEDC | DDC | FDDC | TDC | FTDC | CR | FCR | CA | FCA

  /** `PinTitle.values()`, in declaration order. */
  const PinTitles: seq<PinTitle> := [
    NoPin, SP, SPS, GP, PT, FPT, RB, FRB, SA, FSA, EM, FEM,
    DIA, FDIA, EDC, FEDC, DDC, FDDC, TDC, FTDC, CR, FCR, CA, FCA
  ]

  /** `MonthlyRecord`: what `finalizeMonth` stores for a month. */
  datatype MonthlyRecord = MonthlyRecord(
    month: Month,
    groupPV: real,
    personalPV: real,
    personalGroupPV: real,
    pin: PinTitle,
    firstBonus: real,
    leadershipBonus: real,
    rubyBonus: real,
    monthlyDepthBonus: real,
    emeraldBonus: real,
    diamondBonus: real,
    diamondPlusBonus: real,
    oneTimeBonus: real,
    faaBonus: real)

  /** A record as `MonthlyRecord(month)` creates it: zero volumes and bonuses, no PIN. */
  function NewRecord(month: Month): (r: MonthlyRecord)
    ensures r.month == month && r.pin == NoPin
    ensures r.groupPV == 0.0 && r.personalPV == 0.0 && r.personalGroupPV == 0.0
    ensures r.firstBonus == 0.0 && r.leadershipBonus == 0.0 && r.rubyBonus == 0.0
    ensures r.monthlyDepthBonus == 0.0 && r.emeraldBonus == 0.0 && r.diamondBonus == 0.0
    ensures r.diamondPlusBonus == 0.0 && r.oneTimeBonus == 0.0 && r.faaBonus == 0.0
  {
    MonthlyRecord(month, 0.0, 0.0, 0.0, NoPin, 0.0, 0.0, 0.0, 0.0, 0.0, 0.0, 0.0, 0.0, 0.0)
  }
}
