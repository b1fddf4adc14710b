/**
 * The purchase aggregation of the loader: every raw purchase row becomes one
 * aggregated row carrying the row's own spend and age together with two
 * per-customer statistics, the mean gap between consecutive purchases and the
 * purchase frequency.
 *
 * The clock is the parameter `now`. The exceptions the helpers can raise
 * (`First()`/`Last()` on an empty list, decimal division by zero) are
 * `LoadError` values.
 */
module Loader {
  import opened Results
  import opened PurchaseData
  import opened DateOrder
  import opened GapStatistics

  datatype LoadError =
    | NoElements    // First()/Last() of an empty list
    | DivideByZero  // decimal division by a zero day count

  predicate HasPurchases(data: seq<HistoricalPurchase>, id: string) {
    exists i | 0 <= i < |data| :: data[i].customerId == id
  }

  /** The rows of customer `id`, in input order (`Where`). */
  function PurchasesOf(data: seq<HistoricalPurchase>, id: string): seq<HistoricalPurchase> {
    if |data| == 0 then []
    else (if data[0].customerId == id then [data[0]] else []) + PurchasesOf(data[1..], id)
  }

  /** `PurchasesOf` keeps exactly the rows of customer `id`. */
  lemma {:induction false} PurchasesOfMembers(data: seq<HistoricalPurchase>, id: string)
    ensures forall p :: p in PurchasesOf(data, id) <==> p in data && p.customerId == id
    ensures |PurchasesOf(data, id)| > 0 <==> HasPurchases(data, id)
  {
    if |data| > 0 {
      PurchasesOfMembers(data[1..], id);
      assert data == [data[0]] + data[1..];
      assert forall i | 1 <= i < |data| :: data[i] == data[1..][i - 1];
    }
  }

  /** Position of the first row of customer `id` in input order. */
  function FirstIndexOf(data: seq<HistoricalPurchase>, id: string): (r: nat)
    requires HasPurchases(data, id)
    ensures r < |data| && data[r].customerId == id
    ensures forall j | 0 <= j < r :: data[j].customerId != id
  {
    if data[0].customerId == id then 0
    else
      var i :| 0 <= i < |data| && data[i].customerId == id;
      assert data[1..][i - 1].customerId == id;
      1 + FirstIndexOf(data[1..], id)
  }

  /**
   * For a customer present in the data, the first filtered row is the
   * customer's first row in input order.
   */
  lemma {:induction false} FirstOfPurchases(data: seq<HistoricalPurchase>, id: string)
    ensures HasPurchases(data, id) ==>
      |PurchasesOf(data, id)| > 0 && PurchasesOf(data, id)[0] == data[FirstIndexOf(data, id)]
  {
    if HasPurchases(data, id) && data[0].customerId != id {
      var i :| 0 <= i < |data| && data[i].customerId == id;
      assert data[1..][i - 1].customerId == id;
      FirstOfPurchases(data[1..], id);
    }
  }

  /**
   * `PurchasesOf` keeps every row of customer `id` as often as the data holds
   * it, and no other row: its length is the customer's row count.
   */
  lemma {:induction false} PurchasesOfCounts(data: seq<HistoricalPurchase>, id: string)
    ensures forall p :: multiset(PurchasesOf(data, id))[p] == if p.customerId == id then multiset(data)[p] else 0
  {
    if |data| > 0 {
      PurchasesOfCounts(data[1..], id);
      assert data == [data[0]] + data[1..];
    }
  }

  function PurchaseDates(s: seq<HistoricalPurchase>): seq<real> {
    seq(|s|, i requires 0 <= i < |s| => s[i].purchaseDate)
  }

  /**
   * The mean consecutive gap of purchases sorted by date is their overall
   * span divided by the number of gaps.
   */
  lemma SortedMeanGap(own: seq<HistoricalPurchase>)
    requires |own| >= 2
    ensures Mean(Gaps(PurchaseDates(SortByDate(own)))) == SpanPerGap(own)
  {
    var dates := PurchaseDates(SortByDate(own));
    SortedDatesSpan(own);
    MeanGap(dates);
  }

  /**
   * Days from a customer's earliest purchase to the latest, spread evenly
   * over the gaps between the purchases; never negative.
   */
  function SpanPerGap(own: seq<HistoricalPurchase>): (r: real)
    requires |own| >= 2
    ensures r >= 0.0
  {
    NonNegativeQuotient(DateSpan(own), |own| - 1);
    DateSpan(own) / (|own| - 1) as real
  }

  /** Sorted by date, the purchase dates run from the earliest to the latest. */
  lemma SortedDatesSpan(own: seq<HistoricalPurchase>)
    requires |own| > 0
    ensures |PurchaseDates(SortByDate(own))| == |own|
    ensures Span(PurchaseDates(SortByDate(own))) == DateSpan(own)
  {
    var sorted := SortByDate(own);
    SortedEnds(own, sorted);
    EndpointDates(sorted, EarliestDate(own), LatestDate(own));
  }

  lemma EndpointDates(s: seq<HistoricalPurchase>, first: real, last: real)
    requires |s| > 0 && s[0].purchaseDate == first && s[|s| - 1].purchaseDate == last
    ensures |PurchaseDates(s)| == |s|
    ensures Span(PurchaseDates(s)) == last - first
  {
  }

  lemma NonNegativeQuotient(x: real, n: nat)
    requires x >= 0.0 && n > 0
    ensures x / n as real >= 0.0
  {
  }

  /**
   * CalculateAverageDaysBetweenPurchases: with two or more purchases, the
   * mean gap between consecutive purchases once they are sorted by date;
   * with one, the days elapsed since it.
   */
  function AverageDaysBetweenPurchases(data: seq<HistoricalPurchase>, id: string, now: real): (r: Result<real, LoadError>)
    ensures r.Failure? <==> !HasPurchases(data, id)
    ensures r.Failure? ==> r.error == NoElements
    ensures HasPurchases(data, id) && |PurchasesOf(data, id)| == 1 ==>
      r == Success(now - data[FirstIndexOf(data, id)].purchaseDate)
    ensures |PurchasesOf(data, id)| >= 2 ==>
      r == Success(SpanPerGap(PurchasesOf(data, id)))
  {
    PurchasesOfMembers(data, id);
    FirstOfPurchases(data, id);
    AverageOfOwn(PurchasesOf(data, id), now)
  }

  /**
   * The average over one customer's rows: no rows is an error, one row gives
   * the days since it, more give the mean gap of the date-sorted rows.
   */
  function AverageOfOwn(own: seq<HistoricalPurchase>, now: real): (r: Result<real, LoadError>)
    ensures |own| == 0 ==> r == Failure(NoElements)
    ensures |own| == 1 ==> r == Success(now - own[0].purchaseDate)
    ensures |own| >= 2 ==> r == Success(SpanPerGap(own))
  {
    if |own| > 1 then
      Success(MeanSortedGap(own))
    else if |own| == 0 then
      Failure(NoElements)
    else
      Success(DaysSinceOnlyPurchase(own, now))
  }

  /** The mean gap between consecutive purchases once sorted by date. */
  function MeanSortedGap(own: seq<HistoricalPurchase>): (r: real)
    requires |own| >= 2
    ensures r == SpanPerGap(own)
  {
    var purchases := SortByDate(own);
    SortedMeanGap(own);
    Mean(Gaps(PurchaseDates(purchases)))
  }

  /** Days since the last, and only, purchase of the sorted list. */
  function DaysSinceOnlyPurchase(own: seq<HistoricalPurchase>, now: real): (r: real)
    requires |own| == 1
    ensures r == now - own[0].purchaseDate
  {
    var purchases := SortByDate(own);
    assert own == [own[0]];
    now - purchases[|purchases| - 1].purchaseDate
  }

  /**
   * CalculatePurchaseFrequency: the customer's purchase count over the days
   * elapsed since the customer's first row in input order.
   */
  function PurchaseFrequency(data: seq<HistoricalPurchase>, id: string, now: real): (r: Result<real, LoadError>)
    ensures !HasPurchases(data, id) ==> r == Failure(NoElements)
    ensures HasPurchases(data, id) ==>
      var first := data[FirstIndexOf(data, id)];
      && (r.Failure? <==> first.purchaseDate == now)
      && (r.Failure? ==> r.error == DivideByZero)
      && (r.Success? ==> r.value == |PurchasesOf(data, id)| as real / (now - first.purchaseDate))
  {
    var purchases := PurchasesOf(data, id);
    PurchasesOfMembers(data, id);
    if |purchases| == 0 then Failure(NoElements)
    else
      FirstOfPurchases(data, id);
      var elapsed := now - purchases[0].purchaseDate;
      if elapsed == 0.0 then Failure(DivideByZero)
      else Success(|purchases| as real / elapsed)
  }

  /**
   * When every purchase lies before `now`, the frequency of a customer in
   * the data is defined and positive, in whatever order the rows come.
   */
  lemma PastPurchasesPositiveFrequency(data: seq<HistoricalPurchase>, id: string, now: real)
    requires forall i | 0 <= i < |data| :: data[i].purchaseDate < now
    requires HasPurchases(data, id)
    ensures PurchaseFrequency(data, id, now).Success?
    ensures PurchaseFrequency(data, id, now).value > 0.0
  {
    var first := data[FirstIndexOf(data, id)];
    PurchasesOfMembers(data, id);
    var count := |PurchasesOf(data, id)| as real;
    assert count > 0.0 && now - first.purchaseDate > 0.0;
    PositiveQuotient(count, now - first.purchaseDate);
  }

  lemma PositiveQuotient(x: real, y: real)
    requires x > 0.0 && y > 0.0
    ensures x / y > 0.0
  {
  }

  /** The row the selector builds for `row`. */
  function AggregateRow(data: seq<HistoricalPurchase>, row: HistoricalPurchase, now: real): (r: Result<AggregatedPurchase, LoadError>)
    ensures HasPurchases(data, row.customerId) ==>
      && (r.Success? <==> data[FirstIndexOf(data, row.customerId)].purchaseDate != now)
      && (r.Failure? ==> r.error == DivideByZero)
      && (r.Success? ==> AggregatesRow(data, row, now, r.value))
  {
    var average := AverageDaysBetweenPurchases(data, row.customerId, now);
    var frequency := PurchaseFrequency(data, row.customerId, now);
    if average.Failure? then Failure(average.error)
    else if frequency.Failure? then Failure(frequency.error)
    else Success(AggregatedPurchase(
      customerId := row.customerId,
      customerName := row.customerName,
      averageDaysBetweenPurchases := average.value,
      totalSpend := row.spend,
      purchaseFrequency := frequency.value,
      daysSinceLastPurchase := now - row.purchaseDate))
  }

  /** The aggregated row for `row`, stated field by field. */
  predicate AggregatesRow(data: seq<HistoricalPurchase>, row: HistoricalPurchase, now: real, a: AggregatedPurchase) {
    && a.customerId == row.customerId
    && a.customerName == row.customerName
    && a.totalSpend == row.spend
    && a.daysSinceLastPurchase == now - row.purchaseDate
    && AverageDaysBetweenPurchases(data, row.customerId, now) == Success(a.averageDaysBetweenPurchases)
    && PurchaseFrequency(data, row.customerId, now) == Success(a.purchaseFrequency)
  }

  /**
   * LoadAndAggregateData: one aggregated row per raw row, in input order.
   * It fails, with a division by zero, exactly when some customer's first
   * row is dated `now`; the empty-list failure of the helpers never occurs,
   * because they are only asked about customers present in the data.
   */
  function LoadAndAggregateData(rawData: seq<HistoricalPurchase>, now: real): (r: Result<seq<AggregatedPurchase>, LoadError>)
    ensures r.Success? <==>
      forall i | 0 <= i < |rawData| :: rawData[FirstIndexOf(rawData, rawData[i].customerId)].purchaseDate != now
    ensures r.Failure? ==> r.error == DivideByZero
    ensures r.Success? ==> |r.value| == |rawData|
    ensures r.Success? ==> forall i | 0 <= i < |rawData| ::
      && r.value[i].customerId == rawData[i].customerId
      && r.value[i].customerName == rawData[i].customerName
      && r.value[i].totalSpend == rawData[i].spend
      && r.value[i].daysSinceLastPurchase == now - rawData[i].purchaseDate
      && Success(r.value[i].averageDaysBetweenPurchases) == AverageDaysBetweenPurchases(rawData, rawData[i].customerId, now)
      && Success(r.value[i].purchaseFrequency) == PurchaseFrequency(rawData, rawData[i].customerId, now)
    ensures r.Success? ==> forall i, j | 0 <= i < |rawData| && 0 <= j < |rawData| ::
      rawData[i].customerId == rawData[j].customerId ==>
        && r.value[i].averageDaysBetweenPurchases == r.value[j].averageDaysBetweenPurchases
        && r.value[i].purchaseFrequency == r.value[j].purchaseFrequency
  {
    var r := MapAll(row => AggregateRow(rawData, row, now), rawData);
    assert forall i | 0 <= i < |rawData| :: HasPurchases(rawData, rawData[i].customerId);
    r
  }

  lemma {:induction false} PurchasesOfConcat(a: seq<HistoricalPurchase>, b: seq<HistoricalPurchase>, id: string)
    ensures PurchasesOf(a + b, id) == PurchasesOf(a, id) + PurchasesOf(b, id)
  {
    if |a| == 0 {
      assert a + b == b;
    } else {
      var head := if a[0].customerId == id then [a[0]] else [];
      calc {
        PurchasesOf(a + b, id);
        { assert (a + b)[0] == a[0] && (a + b)[1..] == a[1..] + b; }
        head + PurchasesOf(a[1..] + b, id);
        { PurchasesOfConcat(a[1..], b, id); }
        head + (PurchasesOf(a[1..], id) + PurchasesOf(b, id));
        (head + PurchasesOf(a[1..], id)) + PurchasesOf(b, id);
        PurchasesOf(a, id) + PurchasesOf(b, id);
      }
    }
  }

  /**
   * A row of another customer, inserted anywhere in the data, changes
   * neither statistic of customer `id`.
   */
  lemma OtherCustomerRowIrrelevant(data: seq<HistoricalPurchase>, k: nat, q: HistoricalPurchase, id: string, now: real)
    requires k <= |data| && q.customerId != id
    ensures AverageDaysBetweenPurchases(data[..k] + [q] + data[k..], id, now) == AverageDaysBetweenPurchases(data, id, now)
    ensures PurchaseFrequency(data[..k] + [q] + data[k..], id, now) == PurchaseFrequency(data, id, now)
  {
    var extended := data[..k] + [q] + data[k..];
    PurchasesOfConcat(data[..k] + [q], data[k..], id);
    PurchasesOfConcat(data[..k], [q], id);
    PurchasesOfConcat(data[..k], data[k..], id);
    assert PurchasesOf([q], id) == [];
    assert data[..k] + data[k..] == data;
    SameRowsSameStatistics(extended, data, id, now);
  }

  /** Both statistics are functions of the customer's own rows alone. */
  lemma SameRowsSameStatistics(d1: seq<HistoricalPurchase>, d2: seq<HistoricalPurchase>, id: string, now: real)
    requires PurchasesOf(d1, id) == PurchasesOf(d2, id)
    ensures AverageDaysBetweenPurchases(d1, id, now) == AverageDaysBetweenPurchases(d2, id, now)
    ensures PurchaseFrequency(d1, id, now) == PurchaseFrequency(d2, id, now)
  {
  }

  /** Two data sets that agree on every row's customer id and date. */
  predicate SameIdsAndDates(d1: seq<HistoricalPurchase>, d2: seq<HistoricalPurchase>) {
    && |d1| == |d2|
    && forall i | 0 <= i < |d1| ::
         d1[i].customerId == d2[i].customerId && d1[i].purchaseDate == d2[i].purchaseDate
  }

  lemma {:induction false} FilteredDatesAgree(d1: seq<HistoricalPurchase>, d2: seq<HistoricalPurchase>, id: string)
    requires SameIdsAndDates(d1, d2)
    ensures |PurchasesOf(d1, id)| == |PurchasesOf(d2, id)|
    ensures forall i | 0 <= i < |PurchasesOf(d1, id)| ::
      PurchasesOf(d1, id)[i].purchaseDate == PurchasesOf(d2, id)[i].purchaseDate
  {
    if |d1| > 0 {
      assert SameIdsAndDates(d1[1..], d2[1..]) by {
        assert forall i | 0 <= i < |d1| - 1 :: d1[1..][i] == d1[i + 1] && d2[1..][i] == d2[i + 1];
      }
      FilteredDatesAgree(d1[1..], d2[1..], id);
    }
  }

  lemma SameDatesSameSpan(s1: seq<HistoricalPurchase>, s2: seq<HistoricalPurchase>)
    requires |s1| == |s2| > 0
    requires forall i | 0 <= i < |s1| :: s1[i].purchaseDate == s2[i].purchaseDate
    ensures DateSpan(s1) == DateSpan(s2)
  {
  }

  /** Agreeing ids and dates give the same first row date for every customer. */
  lemma SameFirstDate(d1: seq<HistoricalPurchase>, d2: seq<HistoricalPurchase>, id: string)
    requires SameIdsAndDates(d1, d2)
    ensures HasPurchases(d1, id) <==> HasPurchases(d2, id)
    ensures HasPurchases(d1, id) ==>
      FirstIndexOf(d1, id) == FirstIndexOf(d2, id) &&
      d1[FirstIndexOf(d1, id)].purchaseDate == d2[FirstIndexOf(d2, id)].purchaseDate
  {
  }

  lemma SameSpanSameSpanPerGap(s1: seq<HistoricalPurchase>, s2: seq<HistoricalPurchase>)
    requires |s1| == |s2| >= 2 && DateSpan(s1) == DateSpan(s2)
    ensures SpanPerGap(s1) == SpanPerGap(s2)
  {
  }

  lemma SameDatesSameAverage(d1: seq<HistoricalPurchase>, d2: seq<HistoricalPurchase>, id: string, now: real)
    requires SameIdsAndDates(d1, d2)
    ensures AverageDaysBetweenPurchases(d1, id, now) == AverageDaysBetweenPurchases(d2, id, now)
  {
    FilteredDatesAgree(d1, d2, id);
    SameDatesSameOwnAverage(PurchasesOf(d1, id), PurchasesOf(d2, id), now);
  }

  lemma SameDatesSameOwnAverage(s1: seq<HistoricalPurchase>, s2: seq<HistoricalPurchase>, now: real)
    requires |s1| == |s2|
    requires forall i | 0 <= i < |s1| :: s1[i].purchaseDate == s2[i].purchaseDate
    ensures AverageOfOwn(s1, now) == AverageOfOwn(s2, now)
  {
    if |s1| == 1 {
      OneDateSameAverage(s1, s2, now);
    } else if |s1| >= 2 {
      ManyDatesSameAverage(s1, s2, now);
    }
  }

  /** Single rows with the same date have the same average. */
  lemma OneDateSameAverage(s1: seq<HistoricalPurchase>, s2: seq<HistoricalPurchase>, now: real)
    requires |s1| == |s2| == 1 && s1[0].purchaseDate == s2[0].purchaseDate
    ensures AverageOfOwn(s1, now) == AverageOfOwn(s2, now)
  {
    OneRowAverage(s1, now);
    OneRowAverage(s2, now);
  }

  /** The average of a single row is the days since it. */
  lemma OneRowAverage(s: seq<HistoricalPurchase>, now: real)
    requires |s| == 1
    ensures AverageOfOwn(s, now) == Success(now - s[0].purchaseDate)
  {
  }

  /** Two or more rows with the same dates, position by position, have the same average. */
  lemma ManyDatesSameAverage(s1: seq<HistoricalPurchase>, s2: seq<HistoricalPurchase>, now: real)
    requires |s1| == |s2| >= 2
    requires forall i | 0 <= i < |s1| :: s1[i].purchaseDate == s2[i].purchaseDate
    ensures AverageOfOwn(s1, now) == AverageOfOwn(s2, now)
  {
    SameDatesSameSpan(s1, s2);
    SameSpanSameSpanPerGap(s1, s2);
    assert AverageOfOwn(s1, now) == Success(SpanPerGap(s1));
  }

  lemma SameDatesSameFrequency(d1: seq<HistoricalPurchase>, d2: seq<HistoricalPurchase>, id: string, now: real)
    requires SameIdsAndDates(d1, d2)
    ensures PurchaseFrequency(d1, id, now) == PurchaseFrequency(d2, id, now)
  {
    FilteredDatesAgree(d1, d2, id);
    SameFirstDate(d1, d2, id);
  }

  /**
   * Only customer ids and purchase dates feed the two statistics: renaming
   * customers or changing spends leaves them unchanged.
   */
  lemma OnlyIdsAndDatesMatter(d1: seq<HistoricalPurchase>, d2: seq<HistoricalPurchase>, id: string, now: real)
    requires SameIdsAndDates(d1, d2)
    ensures AverageDaysBetweenPurchases(d1, id, now) == AverageDaysBetweenPurchases(d2, id, now)
    ensures PurchaseFrequency(d1, id, now) == PurchaseFrequency(d2, id, now)
  {
    SameDatesSameAverage(d1, d2, id, now);
    SameDatesSameFrequency(d1, d2, id, now);
  }
}
