/** `MemberPin`: the PIN title of an ABO. A title is evaluated each month by
    trying the titles from the highest rank down and keeping the first one
    that qualifies; the Gold Producer test counts the Silver Producer months
    in the ABO's record list. */
module Pin {
  import opened Wrappers
  import opened Calendar
  import opened Entities
  import opened Rates
  import opened Forest
  import opened MemberNetwork
  import opened Partners
  import opened Bonus

  /** The position of a title in `PinTitle.values()`. */
  function PinOrdinal(t: PinTitle): (r: nat)
    ensures r < |PinTitles| && PinTitles[r] == t
  {
    match t
    case NoPin => 0 case SP => 1 case SPS => 2 case GP => 3 case PT => 4 case FPT => 5
    case RB => 6 case FRB => 7 case SA => 8 case FSA => 9 case EM => 10 case FEM => 11
    case DIA => 12 case FDIA => 13 case EDC => 14 case FEDC => 15 case DDC => 16 case FDDC => 17
    case TDC => 18 case FTDC => 19 case CR => 20 case FCR => 21 case CA => 22 case FCA => 23
  }

  /** `CountWithConsequence`: how many records match, and how long the run
      of matches at the end of the list is. */
  datatype Tally = Tally(count: int, consequence: int)

  /** The number of records of `rs` that carry `pin`. */
  function CountOf(rs: seq<MonthlyRecord>, pin: PinTitle): (r: nat)
    ensures r <= |rs|
  {
    if rs == [] then 0
    else CountOf(rs[..|rs| - 1], pin) + (if rs[|rs| - 1].pin == pin then 1 else 0)
  }

  /** The length of the run of records carrying `pin` at the end of `rs`: it
      grows with each match and drops to zero at each other record. */
  function TrailingRun(rs: seq<MonthlyRecord>, pin: PinTitle): (r: nat)
    ensures r <= CountOf(rs, pin)
    ensures forall k :: |rs| - r <= k < |rs| ==> rs[k].pin == pin
    ensures r < |rs| ==> rs[|rs| - 1 - r].pin != pin
  {
    if rs == [] then 0
    else if rs[|rs| - 1].pin == pin then TrailingRun(rs[..|rs| - 1], pin) + 1
    else 0
  }

  /** The index of the first record whose month is at or after month total
      `bound`, searching from index `i`. */
  function FirstAtOrAfter(rs: seq<MonthlyRecord>, bound: int, i: nat): (r: Option<nat>)
    requires i <= |rs|
    ensures r.Some? ==> i <= r.value < |rs| && Total(rs[r.value].month) >= bound
    ensures r.Some? ==> forall k :: i <= k < r.value ==> Total(rs[k].month) < bound
    ensures r.None? ==> forall k :: i <= k < |rs| ==> Total(rs[k].month) < bound
    decreases |rs| - i
  {
    if i == |rs| then None
    else if Total(rs[i].month) >= bound then Some(i)
    else FirstAtOrAfter(rs, bound, i + 1)
  }

  /** What `countPINWithin` returns for a search bound with month total
      `bound`: nothing when no record reaches the bound, otherwise the count
      and the trailing run from the first record that does to the end. */
  function TallyFrom(rs: seq<MonthlyRecord>, pin: PinTitle, bound: int): (r: Tally)
    ensures 0 <= r.consequence <= r.count <= |rs|
    ensures (forall k :: 0 <= k < |rs| ==> Total(rs[k].month) < bound) ==> r == Tally(0, 0)
  {
    match FirstAtOrAfter(rs, bound, 0)
    case None => Tally(0, 0)
    case Some(i) => Tally(CountOf(rs[i..], pin), TrailingRun(rs[i..], pin))
  }

  /** The search loop of `countPINWithin`: the index of the first record
      whose month compares at or after `bound`, or -1. */
  method FindStart(rs: seq<MonthlyRecord>, bound: Month) returns (startIndex: int)
    ensures FirstAtOrAfter(rs, Total(bound), 0).None? ==> startIndex == -1
    ensures FirstAtOrAfter(rs, Total(bound), 0).Some? ==> startIndex == FirstAtOrAfter(rs, Total(bound), 0).value
  {
    startIndex := -1;
    var i := 0;
    while i < |rs|
      invariant 0 <= i <= |rs|
      invariant FirstAtOrAfter(rs, Total(bound), 0) == FirstAtOrAfter(rs, Total(bound), i)
    {
      if CompareTo(rs[i].month, bound) >= 0 {
        startIndex := i;
        return;
      }
      i := i + 1;
    }
  }

  /** One more record in the counting loop. */
  lemma TallyStep(rs: seq<MonthlyRecord>, pin: PinTitle, s: nat, j: nat)
    requires s <= j < |rs|
    ensures CountOf(rs[s..j + 1], pin) == CountOf(rs[s..j], pin) + (if rs[j].pin == pin then 1 else 0)
    ensures TrailingRun(rs[s..j + 1], pin) == if rs[j].pin == pin then TrailingRun(rs[s..j], pin) + 1 else 0
  {
    assert rs[s..j + 1][..j - s] == rs[s..j];
  }

  /** The counting loop of `countPINWithin`, from `startIndex` to the end:
      `count` goes up at each match, `consequence` too, and drops to zero at
      each other record. */
  method CountFrom(rs: seq<MonthlyRecord>, pin: PinTitle, startIndex: nat) returns (r: Tally)
    requires startIndex <= |rs|
    ensures r == Tally(CountOf(rs[startIndex..], pin), TrailingRun(rs[startIndex..], pin))
  {
    var count, consequence := 0, 0;
    var j := startIndex;
    while j < |rs|
      invariant startIndex <= j <= |rs|
      invariant count == CountOf(rs[startIndex..j], pin)
      invariant consequence == TrailingRun(rs[startIndex..j], pin)
    {
      TallyStep(rs, pin, startIndex, j);
      if rs[j].pin == pin {
        count := count + 1;
        consequence := consequence + 1;
      } else {
        consequence := 0;
      }
      j := j + 1;
    }
    assert rs[startIndex..j] == rs[startIndex..];
    r := Tally(count, consequence);
  }

  /** `countPINWithin`. The month loop runs the shared `startMonth` object
      forward past `curMonth`, and the record search then compares against
      that moved object, not against the window start. */
  method CountPinWithin(rs: seq<MonthlyRecord>, pin: PinTitle, startMonth: AmMonth, curMonth: AmMonth) returns (r: Tally)
    requires startMonth != curMonth
    modifies startMonth
    ensures startMonth.Value() == AfterRange(old(startMonth.Value()), curMonth.Value(), 1)
    ensures r == TallyFrom(rs, pin, Total(startMonth.Value()))
  {
    var months := IterateRange(startMonth, curMonth, 1);
    if rs == [] {
      return Tally(0, 0);
    }
    var startIndex := FindStart(rs, startMonth.Value());
    if startIndex < 0 {
      return Tally(0, 0);
    }
    r := CountFrom(rs, pin, startIndex);
  }

  /** A non-empty window leaves its start object one month past `curMonth`,
      so the records are searched from the month after it. */
  lemma SearchStartsAfter(s: Month, cur: Month)
    requires Total(s) <= Total(cur)
    ensures Total(AfterRange(s, cur, 1)) == Total(cur) + 1
  {
    AfterRangeStepOne(s, cur);
  }

  /** `countPINWithinPF`: the window opens at the September of the fiscal
      year of `curMonth`. */
  method CountPinWithinPF(rs: seq<MonthlyRecord>, pin: PinTitle, curMonth: AmMonth) returns (r: Tally)
    ensures r == TallyFrom(rs, pin, Total(AfterRange(StartPF(curMonth.Value()), curMonth.Value(), 1)))
    ensures IsNormal(curMonth.Value()) ==> r == TallyFrom(rs, pin, Total(curMonth.Value()) + 1)
  {
    var start := new AmMonth(if curMonth.month <= 8 then curMonth.year - 1 else curMonth.year, 9);
    assert start.Value() == StartPF(curMonth.Value());
    r := CountPinWithin(rs, pin, start, curMonth);
    if IsNormal(curMonth.Value()) {
      SearchStartsAfter(StartPF(curMonth.Value()), curMonth.Value());
    }
  }

  /** `countPINWithin12Month`: the window opens eleven months before
      `curMonth`, so the search starts the month after it. */
  method CountPinWithin12Month(rs: seq<MonthlyRecord>, pin: PinTitle, curMonth: AmMonth) returns (r: Tally)
    ensures r == TallyFrom(rs, pin, Total(curMonth.Value()) + 1)
  {
    var start := new AmMonth(curMonth.year - 1, curMonth.month + 1);
    assert Total(start.Value()) == Total(curMonth.Value()) - 11;
    SearchStartsAfter(start.Value(), curMonth.Value());
    r := CountPinWithin(rs, pin, start, curMonth);
  }

  /** Silver Producer: a personal group of 1000, or one independent partner
      and a personal group of 400, or two independent partners. */
  predicate SpQualified(b: Book, x: Node)
    requires Ok(b) && x < |b.children|
    ensures LeadershipQualified(b, x) ==> SpQualified(b, x)
  {
    var ind := |IndependentPartners(b, x)|;
    PersonalGroup(b, x) >= SpPvMinimum || (ind == 1 && PersonalGroup(b, x) >= SpPvCondition) || ind >= 2
  }

  /** Silver Producer Sponsor: one independent partner and a personal group
      under 400. */
  predicate SpsQualified(b: Book, x: Node)
    requires Ok(b) && x < |b.children|
    ensures SpsQualified(b, x) ==> !SpQualified(b, x) && !LeadershipQualified(b, x)
  {
    |IndependentPartners(b, x)| == 1 && PersonalGroup(b, x) < SpPvCondition
  }

  /** `isQualified(pin, month)`: no title always holds; Silver Producer and
      Silver Producer Sponsor read the partners and the personal group; Gold
      Producer needs three Silver Producer records from the search bound of
      `countPINWithin12Month` on; Platinum and every higher title never hold. */
  predicate PinQualified(b: Book, x: Node, pin: PinTitle, month: Month)
    requires Ok(b) && x < |b.children|
  {
    match pin
    case NoPin => true
    case SP => SpQualified(b, x)
    case SPS => SpsQualified(b, x)
    case GP => TallyFrom(b.member[x].records, SP, Total(month) + 1).count >= 3
    case _ => false
  }

  /** `isQualified` as the source runs it: the Gold Producer case counts
      through `countPINWithin12Month`, and the Platinum case calls
      `countPINWithinPF` and drops its answer. */
  method IsQualified(b: Book, x: Node, pin: PinTitle, month: AmMonth) returns (q: bool)
    requires Ok(b) && x < |b.children|
    ensures q == PinQualified(b, x, pin, month.Value())
  {
    match pin {
      case NoPin => q := true;
      case SP =>
        var ind := |IndependentPartners(b, x)|;
        var pg := PersonalGroup(b, x);
        q := pg >= SpPvMinimum || (ind == 1 && pg >= SpPvCondition) || ind >= 2;
      case SPS =>
        q := |IndependentPartners(b, x)| == 1 && PersonalGroup(b, x) < SpPvCondition;
      case GP =>
        var t := CountPinWithin12Month(b.member[x].records, SP, month);
        q := t.count >= 3;
      case PT =>
        var t := CountPinWithinPF(b.member[x].records, SP, month);
        q := false;
      case _ => q := false;
    }
  }

  /** The ranking lists every title once: the title at position `i` has
      ordinal `i`. */
  lemma OrdinalAt(i: int)
    requires 0 <= i < |PinTitles|
    ensures PinOrdinal(PinTitles[i]) == i
  {
    if i < 12 {
      assert i in {0, 1, 2, 3, 4, 5, 6, 7, 8, 9, 10, 11};
    } else {
      assert i in {12, 13, 14, 15, 16, 17, 18, 19, 20, 21, 22, 23};
    }
  }

  /** The title `evaluate` settles on when it has tried every title above
      position `i` in vain: the highest-ranked title at or below `i` that
      qualifies, or no title. */
  function TopPin(b: Book, x: Node, month: Month, i: int): (t: PinTitle)
    requires Ok(b) && x < |b.children| && -1 <= i < |PinTitles|
    ensures PinQualified(b, x, t, month)
    ensures forall j :: PinOrdinal(t) < j <= i ==> !PinQualified(b, x, PinTitles[j], month)
    decreases i + 1
  {
    if i < 0 then NoPin
    else if PinQualified(b, x, PinTitles[i], month) then OrdinalAt(i); PinTitles[i]
    else TopPin(b, x, month, i - 1)
  }

  /** The highest-ranked title that qualifies. */
  function HighestPin(b: Book, x: Node, month: Month): (t: PinTitle)
    requires Ok(b) && x < |b.children|
    ensures PinQualified(b, x, t, month)
    ensures forall u :: PinOrdinal(u) > PinOrdinal(t) ==> !PinQualified(b, x, u, month)
  {
    TopPin(b, x, month, |PinTitles| - 1)
  }

  /** `evaluate`: tries the titles from the highest down and stops at the
      first that qualifies. */
  method Evaluate(b: Book, x: Node, month: AmMonth) returns (title: PinTitle)
    requires Ok(b) && x < |b.children|
    ensures title == HighestPin(b, x, month.Value())
  {
    title := NoPin;
    var i := |PinTitles| - 1;
    while i >= 0
      invariant -1 <= i < |PinTitles|
      invariant TopPin(b, x, month.Value(), i) == HighestPin(b, x, month.Value())
    {
      var q := IsQualified(b, x, PinTitles[i], month);
      if q {
        title := PinTitles[i];
        break;
      }
      i := i - 1;
    }
  }

  /** Silver Producer and Silver Producer Sponsor never both hold. */
  lemma SpExcludesSps(b: Book, x: Node, month: Month)
    requires Ok(b) && x < |b.children|
    ensures !(PinQualified(b, x, SP, month) && PinQualified(b, x, SPS, month))
    ensures PinQualified(b, x, SPS, month) ==> |IndependentPartners(b, x)| == 1
  {
  }

  /** Only the four lowest titles can ever be evaluated. */
  lemma OnlyLowTitles(b: Book, x: Node, t: PinTitle, month: Month)
    requires Ok(b) && x < |b.children| && PinQualified(b, x, t, month)
    ensures PinOrdinal(t) <= PinOrdinal(GP)
  {
  }

  /** Gold Producer counts only records after `month`, so with no such
      record it never holds. */
  lemma GpNeedsLaterRecords(b: Book, x: Node, month: Month)
    requires Ok(b) && x < |b.children|
    requires forall k :: 0 <= k < |b.member[x].records| ==> Total(b.member[x].records[k].month) <= Total(month)
    ensures !PinQualified(b, x, GP, month)
  {
  }

  /** An ABO that qualifies for the leadership bonus is a Silver Producer. */
  lemma LeadershipMakesSp(b: Book, x: Node)
    requires Ok(b) && x < |b.children| && LeadershipQualified(b, x)
    ensures SpQualified(b, x) && !SpsQualified(b, x)
  {
  }

  /** An ABO that qualifies for the monthly depth bonus qualifies for the
      leadership bonus. */
  lemma MdMakesLeadership(b: Book, x: Node)
    requires Ok(b) && x < |b.children| && MdQualified(b, x)
    ensures LeadershipQualified(b, x)
  {
  }
}
