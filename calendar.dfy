/** The calendar of the commission simulator: `AmMonth` values, their
    normalisation and arithmetic, the fiscal year that starts in September,
    and the month-range iterator whose cursor is the range's own start object. */
module Calendar {
  import opened Wrappers

  /** Kotlin's `Int` division: the quotient is truncated toward zero. */
  function KDiv(a: int, b: int): (q: int)
    requires b > 0
    ensures a >= 0 ==> 0 <= a - q * b < b
    ensures a < 0 ==> -b < a - q * b <= 0
  {
    if a >= 0 then a / b else -((-a) / b)
  }

  /** Kotlin's `Int` remainder: it carries the sign of the dividend. */
  function KRem(a: int, b: int): (r: int)
    requires b > 0
    ensures a == KDiv(a, b) * b + r
    ensures a >= 0 ==> 0 <= r < b
    ensures a < 0 ==> -b < r <= 0
  {
    a - KDiv(a, b) * b
  }

  /** The value held by an `AmMonth` object: its `year` and `month` fields. */
  datatype Month = Month(year: int, month: int)

  /** `totalMonth`: the number of months since January of year 0 (month 0 of year 0 is 0). */
  function Total(m: Month): int
  {
    m.year * 12 + m.month
  }

  /** A month whose `month` field is a calendar month. */
  predicate IsNormal(m: Month)
  {
    1 <= m.month <= 12
  }

  /** What the `AmMonth` initializer leaves in the fields for constructor
      arguments (year, month). */
  function Normalize(year: int, month: int): (m: Month)
    ensures Total(m) == year * 12 + month
    ensures 1 <= month <= 12 ==> m == Month(year, month)
    ensures month == 0 ==> m == Month(year - 1, 12)
    ensures year * 12 + month >= 0 ==> IsNormal(m)
  {
    if 1 <= month <= 12 then Month(year, month)
    else
      var total := year * 12 + month;
      var y, mo := KDiv(total, 12), KRem(total, 12);
      if mo == 0 then Month(y - 1, 12) else Month(y, mo)
  }

  /** Two calendar months with the same `totalMonth` are the same month. */
  lemma NormalTotalInjective(a: Month, b: Month)
    requires IsNormal(a) && IsNormal(b) && Total(a) == Total(b)
    ensures a == b
  {
  }

  /** Re-running the initializer on an initialized month changes nothing, also
      for the out-of-range months that negative totals leave behind. */
  lemma NormalizeIdempotent(year: int, month: int)
    ensures Normalize(Normalize(year, month).year, Normalize(year, month).month) == Normalize(year, month)
  {
    var m := Normalize(year, month);
    if !(1 <= m.month <= 12) {
      var total := year * 12 + month;
      assert Total(m) == total;
      assert !(1 <= month <= 12);
    }
  }

  /** `AmMonth.plus`: `amount` months later. */
  function Plus(m: Month, amount: int): (r: Month)
    ensures Total(r) == Total(m) + amount
    ensures Total(m) + amount >= 0 ==> IsNormal(r)
  {
    Normalize(m.year, m.month + amount)
  }

  /** `AmMonth.minus`: `amount` months earlier. */
  function Minus(m: Month, amount: int): (r: Month)
    ensures Total(r) == Total(m) - amount
    ensures Total(m) - amount >= 0 ==> IsNormal(r)
  {
    Normalize(m.year, m.month - amount)
  }

  /** Adding twelve months lands on the same calendar month of the next year. */
  lemma PlusTwelve(m: Month)
    requires IsNormal(m) && m.year >= 0
    ensures Plus(m, 12) == Month(m.year + 1, m.month)
  {
    NormalTotalInjective(Plus(m, 12), Month(m.year + 1, m.month));
  }

  /** Subtracting and adding the same amount gives the month back. */
  lemma MinusPlus(m: Month, amount: int)
    requires IsNormal(m) && 0 <= amount <= Total(m)
    ensures Plus(Minus(m, amount), amount) == m
  {
    var back := Plus(Minus(m, amount), amount);
    assert Total(back) == Total(m);
    NormalTotalInjective(back, m);
  }

  /** `AmMonth.compareTo`: the difference of the month totals. */
  function CompareTo(a: Month, b: Month): (r: int)
    ensures r == 0 <==> Total(a) == Total(b)
    ensures r < 0 <==> Total(a) < Total(b)
  {
    Total(a) - Total(b)
  }

  /** For calendar months `compareTo` is zero exactly when `equals` holds
      (same year and same month), and its sign orders months by time. */
  lemma CompareToZeroIff(a: Month, b: Month)
    requires IsNormal(a) && IsNormal(b)
    ensures CompareTo(a, b) == 0 <==> a == b
    ensures CompareTo(a, b) < 0 <==> (a.year < b.year || (a.year == b.year && a.month < b.month))
  {
    if CompareTo(a, b) == 0 {
      NormalTotalInjective(a, b);
    }
  }

  /** `startPF`: September opening the fiscal year that contains `m`. */
  function StartPF(m: Month): (r: Month)
    ensures r.month == 9
    ensures IsNormal(m) ==> Total(r) <= Total(m) < Total(r) + 12
  {
    Month(if m.month <= 8 then m.year - 1 else m.year, 9)
  }

  /** `endPF`: August closing the fiscal year that contains `m`. */
  function EndPF(m: Month): (r: Month)
    ensures r.month == 8
    ensures IsNormal(m) ==> Total(r) - 12 < Total(m) <= Total(r)
  {
    Month(if m.month >= 9 then m.year + 1 else m.year, 8)
  }

  /** A fiscal year spans twelve months: its August is eleven months after its September. */
  lemma EndIsStartPlusEleven(m: Month)
    requires IsNormal(m) && m.year >= 0
    ensures EndPF(m) == Plus(StartPF(m), 11)
  {
    NormalTotalInjective(EndPF(m), Plus(StartPF(m), 11));
  }

  /** The number in the `pfYear` label (`PF` followed by this number). */
  function PfYearNumber(m: Month): (r: int)
    ensures IsNormal(m) ==> r == EndPF(m).year - 2000
    ensures IsNormal(m) ==> r == StartPF(m).year - 1999
  {
    if m.month >= 9 then m.year - 2000 + 1 else m.year - 2000
  }

  /** `PFMonth`: the months of the fiscal year in order, M01 being September. */
  datatype PFMonth = M01 | M02 | M03 | M04 | M05 | M06 | M07 | M08 | M09 | M10 | M11 | M12

  /** `PFMonth.values()`, in declaration order. */
  const PFMonths: seq<PFMonth> := [M01, M02, M03, M04, M05, M06, M07, M08, M09, M10, M11, M12]

  /** The calendar month stored in each `PFMonth` entry. */
  function CalendarMonth(p: PFMonth): int
  {
    match p
    case M01 => 9 case M02 => 10 case M03 => 11 case M04 => 12
    case M05 => 1 case M06 => 2 case M07 => 3 case M08 => 4
    case M09 => 5 case M10 => 6 case M11 => 7 case M12 => 8
  }

  /** `pfMonth`: the fiscal month whose entry is looked up by index in
      `PFMonth.values()`; `None` where that index is out of bounds. */
  function PfMonthOf(m: Month): (r: Option<PFMonth>)
    ensures r.Some? <==> -3 <= m.month <= 20
    ensures IsNormal(m) ==> r.Some? && CalendarMonth(r.value) == m.month
  {
    var index := if m.month >= 9 then m.month - 9 else m.month + 3;
    if 0 <= index < |PFMonths| then Some(PFMonths[index]) else None
  }

  /** A mutable `AmMonth` object. */
  class AmMonth {
    var year: int
    var month: int

    function Value(): Month
      reads this
    {
      Month(year, month)
    }

    /** The initializer stores the arguments and then normalises them in place. */
    constructor (year: int, month: int)
      ensures Value() == Normalize(year, month)
    {
      this.year := year;
      this.month := month;
      new;
      if !(1 <= this.month <= 12) {
        var total := this.year * 12 + this.month;
        this.year := KDiv(total, 12);
        this.month := KRem(total, 12);
        if this.month == 0 {
          this.year := this.year - 1;
          this.month := 12;
        }
      }
    }
  }

  /** The months the iterator of `start..end` yields with a positive step,
      given the value of `start` when iteration begins. */
  function RangeMonths(s: Month, e: Month, step: int): (r: seq<Month>)
    requires step >= 1
    ensures Total(s) > Total(e) ==> r == []
    ensures Total(s) <= Total(e) ==> |r| >= 1 && Total(r[0]) == Total(s)
    ensures forall k :: 0 <= k < |r| ==> Total(r[k]) <= Total(e)
    ensures forall k :: 0 <= k < |r| - 1 ==> Total(r[k + 1]) == Total(r[k]) + step
    decreases Total(e) - Total(s)
  {
    if Total(s) > Total(e) then []
    else [Normalize(s.year, s.month)] + RangeMonths(Plus(s, step), e, step)
  }

  /** The value of the `start` object once the iteration is over. */
  function AfterRange(s: Month, e: Month, step: int): (r: Month)
    requires step >= 1
    ensures Total(r) > Total(e)
    ensures Total(s) > Total(e) ==> r == s
    decreases Total(e) - Total(s)
  {
    if Total(s) > Total(e) then s else AfterRange(Plus(s, step), e, step)
  }

  /** With step 1 from a month of a non-negative year, the range yields
      start, start + 1, ..., end, one entry per month. */
  lemma {:induction false} RangeStepOne(s: Month, e: Month)
    requires IsNormal(s) && Total(s) >= 0
    ensures |RangeMonths(s, e, 1)| == if Total(s) > Total(e) then 0 else Total(e) - Total(s) + 1
    ensures forall k :: 0 <= k < |RangeMonths(s, e, 1)| ==> RangeMonths(s, e, 1)[k] == Plus(s, k)
    decreases Total(e) - Total(s)
  {
    if Total(s) <= Total(e) {
      var s1 := Plus(s, 1);
      RangeStepOne(s1, e);
      var r := RangeMonths(s, e, 1);
      assert r == [Normalize(s.year, s.month)] + RangeMonths(s1, e, 1);
      forall k | 0 <= k < |r|
        ensures r[k] == Plus(s, k)
      {
        if k == 0 {
          NormalTotalInjective(r[0], Plus(s, 0));
        } else {
          NormalTotalInjective(Plus(s1, k - 1), Plus(s, k));
        }
      }
    }
  }

  /** A non-empty range with step 1 leaves its start object at end + 1. */
  lemma {:induction false} AfterRangeStepOne(s: Month, e: Month)
    requires Total(s) <= Total(e)
    ensures Total(AfterRange(s, e, 1)) == Total(e) + 1
    decreases Total(e) - Total(s)
  {
    if Total(Plus(s, 1)) <= Total(e) {
      AfterRangeStepOne(Plus(s, 1), e);
    }
  }

  /** Iterating the same range again, after the first iteration moved its
      start object, yields nothing. */
  lemma SecondIterationEmpty(s: Month, e: Month, step: int)
    requires step >= 1
    ensures RangeMonths(AfterRange(s, e, step), e, step) == []
  {
  }

  /** `AmMonthRangeIterator`: its `current` cursor is the range's `start`
      object itself, so `next` moves the range's start. */
  class MonthRangeIterator {
    const start: AmMonth
    const endInclusive: AmMonth
    const stepMonth: int
    const current: AmMonth

    constructor (start: AmMonth, endInclusive: AmMonth, stepMonth: int)
      ensures this.start == start && this.endInclusive == endInclusive
      ensures this.stepMonth == stepMonth && current == start
    {
      this.start := start;
      this.endInclusive := endInclusive;
      this.stepMonth := stepMonth;
      current := start;
    }

    /** `hasNext`: the cursor has not passed the end. */
    predicate HasNext()
      reads current, endInclusive
      ensures HasNext() <==> Total(current.Value()) <= Total(endInclusive.Value())
    {
      !(CompareTo(current.Value(), endInclusive.Value()) > 0)
    }

    /** `next`: returns a copy of the cursor, then moves the cursor (that is,
        the start object) to start + step. */
    method Next() returns (m: Month)
      requires current == start
      modifies current
      ensures m == Normalize(old(current.year), old(current.month))
      ensures start.Value() == Plus(old(start.Value()), stepMonth)
    {
      m := Normalize(current.year, current.month);
      var newCurrent := Plus(start.Value(), stepMonth);
      current.year := newCurrent.year;
      current.month := newCurrent.month;
    }
  }

  /** `for (month in start..endInclusive)`: collects the months the loop
      visits. The range's start object is advanced as a side effect. */
  method IterateRange(start: AmMonth, endInclusive: AmMonth, stepMonth: int) returns (months: seq<Month>)
    requires start != endInclusive && stepMonth >= 1
    modifies start
    ensures months == RangeMonths(old(start.Value()), endInclusive.Value(), stepMonth)
    ensures start.Value() == AfterRange(old(start.Value()), endInclusive.Value(), stepMonth)
  {
    var it := new MonthRangeIterator(start, endInclusive, stepMonth);
    months := [];
    ghost var s0, e := start.Value(), endInclusive.Value();
    while it.HasNext()
      invariant it.current == start && it.start == start
      invariant it.endInclusive == endInclusive && it.stepMonth == stepMonth
      invariant endInclusive.Value() == e
      invariant months + RangeMonths(start.Value(), e, stepMonth) == RangeMonths(s0, e, stepMonth)
      invariant AfterRange(start.Value(), e, stepMonth) == AfterRange(s0, e, stepMonth)
      decreases Total(e) - Total(start.Value())
    {
      ghost var cur := start.Value();
      assert Total(cur) <= Total(e);
      ghost var next := Plus(cur, stepMonth);
      assert RangeMonths(cur, e, stepMonth) == [Normalize(cur.year, cur.month)] + RangeMonths(next, e, stepMonth);
      assert AfterRange(cur, e, stepMonth) == AfterRange(next, e, stepMonth);
      var m := it.Next();
      assert start.Value() == next;
      ghost var before := months;
      months := months + [m];
      assert months + RangeMonths(next, e, stepMonth) == before + ([m] + RangeMonths(next, e, stepMonth));
    }
  }
}
