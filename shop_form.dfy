/** The credit-card month and year pickers of the shop form service: two
    counting loops that fill a list. The current year is a parameter. */
module ShopForm {

  /** The integers lo, lo+1, ..., hi (empty when lo > hi). */
  function Consecutive(lo: int, hi: int): (r: seq<int>)
    ensures |r| == if lo <= hi then hi - lo + 1 else 0
    ensures forall i :: 0 <= i < |r| ==> r[i] == lo + i
    decreases hi - lo
  {
    if lo > hi then [] else Consecutive(lo, hi - 1) + [hi]
  }

  /** getCreditCardMonths: the months from `startMonth` through 12. */
  method GetCreditCardMonths(startMonth: int) returns (months: seq<int>)
    ensures months == Consecutive(startMonth, 12)
    ensures |months| == if startMonth <= 12 then 13 - startMonth else 0
    ensures forall i :: 0 <= i < |months| ==> months[i] == startMonth + i
  {
    months := [];
    var month := startMonth;
    while month <= 12
      invariant startMonth <= month && (month <= 13 || month == startMonth)
      invariant months == Consecutive(startMonth, month - 1)
      decreases 13 - month
    {
      months := months + [month];
      month := month + 1;
    }
  }

  /** getCreditCardYears: the start year and the ten years after it. */
  method GetCreditCardYears(startYear: int) returns (data: seq<int>)
    ensures data == Consecutive(startYear, startYear + 10)
    ensures |data| == 11 && data[0] == startYear && data[10] == startYear + 10
  {
    data := [];
    var endYear := startYear + 10;
    var theYear := startYear;
    while theYear <= endYear
      invariant startYear <= theYear <= endYear + 1
      invariant data == Consecutive(startYear, theYear - 1)
      decreases endYear - theYear
    {
      data := data + [theYear];
      theYear := theYear + 1;
    }
  }

  /** The months are strictly ascending and each lies in [startMonth, 12]. */
  lemma MonthsAscendingInRange(startMonth: int)
    ensures var m := Consecutive(startMonth, 12);
            && (forall i, j :: 0 <= i < j < |m| ==> m[i] < m[j])
            && (forall i :: 0 <= i < |m| ==> startMonth <= m[i] <= 12)
  {
  }

  /** Starting in January gives the whole year. */
  lemma FullYearOfMonths()
    ensures Consecutive(1, 12) == [1, 2, 3, 4, 5, 6, 7, 8, 9, 10, 11, 12]
  {
    var m := Consecutive(1, 12);
    assert |m| == 12;
    forall i | 0 <= i < 12 ensures m[i] == [1, 2, 3, 4, 5, 6, 7, 8, 9, 10, 11, 12][i] {
    }
  }

  /** A start month past December gives no months. */
  lemma NoMonthsAfterDecember(startMonth: int)
    requires startMonth > 12
    ensures Consecutive(startMonth, 12) == []
  {
  }

  /** The years are strictly ascending, consecutive, and end ten years on. */
  lemma YearsConsecutive(startYear: int)
    ensures var y := Consecutive(startYear, startYear + 10);
            && (forall i :: 0 < i < |y| ==> y[i] == y[i - 1] + 1)
            && y[|y| - 1] == startYear + 10
  {
  }
}
