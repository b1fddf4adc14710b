/**
 * Ordering purchases by date: the stable ascending sort LINQ's `OrderBy`
 * performs, and the earliest and latest dates of a purchase list.
 */
module DateOrder {
  import opened PurchaseData

  predicate SortedByDate(s: seq<HistoricalPurchase>) {
    forall i, j | 0 <= i < j < |s| :: s[i].purchaseDate <= s[j].purchaseDate
  }

  /** The purchases of `s` dated exactly `d`, in their order in `s`. */
  function DatedOn(s: seq<HistoricalPurchase>, d: real): seq<HistoricalPurchase> {
    if |s| == 0 then []
    else (if s[0].purchaseDate == d then [s[0]] else []) + DatedOn(s[1..], d)
  }

  /** Places `p` in front of the first element of `s` dated no earlier than `p`. */
  function Insert(p: HistoricalPurchase, s: seq<HistoricalPurchase>): (r: seq<HistoricalPurchase>)
    requires SortedByDate(s)
    ensures SortedByDate(r)
    ensures multiset(r) == multiset(s) + multiset{p}
    ensures |r| == |s| + 1
    ensures r[0] == p || (|s| > 0 && r[0] == s[0])
  {
    if |s| == 0 || p.purchaseDate <= s[0].purchaseDate then
      [p] + s
    else
      var rest := Insert(p, s[1..]);
      assert s == [s[0]] + s[1..];
      assert s[0].purchaseDate <= rest[0].purchaseDate;
      [s[0]] + rest
  }

  /**
   * Ascending sort by purchase date. Each element is inserted ahead of the
   * later-listed elements that share its date, so the sort is stable.
   */
  function SortByDate(s: seq<HistoricalPurchase>): (r: seq<HistoricalPurchase>)
    ensures SortedByDate(r)
    ensures multiset(r) == multiset(s)
    ensures |r| == |s|
  {
    if |s| == 0 then []
    else
      assert s == [s[0]] + s[1..];
      Insert(s[0], SortByDate(s[1..]))
  }

  lemma DatedOnCons(x: HistoricalPurchase, rest: seq<HistoricalPurchase>, d: real)
    ensures DatedOn([x] + rest, d) == (if x.purchaseDate == d then [x] else []) + DatedOn(rest, d)
  {
  }

  /** Inserting `p` adds it to its own date group only, ahead of that group. */
  lemma {:induction false} InsertKeepsDateGroups(p: HistoricalPurchase, s: seq<HistoricalPurchase>, d: real)
    requires SortedByDate(s)
    ensures DatedOn(Insert(p, s), d) == (if p.purchaseDate == d then [p] else []) + DatedOn(s, d)
  {
    if |s| == 0 || p.purchaseDate <= s[0].purchaseDate {
      DatedOnCons(p, s, d);
    } else {
      var rest := Insert(p, s[1..]);
      InsertKeepsDateGroups(p, s[1..], d);
      DatedOnCons(s[0], rest, d);
      DatedOnCons(s[0], s[1..], d);
      assert [s[0]] + s[1..] == s;
      if p.purchaseDate == d {
        assert s[0].purchaseDate != d;
      }
    }
  }

  /** Purchases sharing a date keep their input order: `OrderBy` is stable. */
  lemma {:induction false} SortIsStable(s: seq<HistoricalPurchase>, d: real)
    ensures DatedOn(SortByDate(s), d) == DatedOn(s, d)
  {
    if |s| > 0 {
      SortIsStable(s[1..], d);
      InsertKeepsDateGroups(s[0], SortByDate(s[1..]), d);
    }
  }

  function EarliestDate(s: seq<HistoricalPurchase>): (r: real)
    requires |s| > 0
    ensures exists i | 0 <= i < |s| :: s[i].purchaseDate == r
    ensures forall i | 0 <= i < |s| :: r <= s[i].purchaseDate
  {
    if |s| == 1 then s[0].purchaseDate
    else
      var m := EarliestDate(s[1..]);
      assert forall i | 1 <= i < |s| :: s[i] == s[1..][i - 1];
      if s[0].purchaseDate <= m then s[0].purchaseDate else m
  }

  function LatestDate(s: seq<HistoricalPurchase>): (r: real)
    requires |s| > 0
    ensures exists i | 0 <= i < |s| :: s[i].purchaseDate == r
    ensures forall i | 0 <= i < |s| :: s[i].purchaseDate <= r
  {
    if |s| == 1 then s[0].purchaseDate
    else
      var m := LatestDate(s[1..]);
      assert forall i | 1 <= i < |s| :: s[i] == s[1..][i - 1];
      if m <= s[0].purchaseDate then s[0].purchaseDate else m
  }

  /** Days from the earliest purchase of `s` to its latest; never negative. */
  function DateSpan(s: seq<HistoricalPurchase>): (r: real)
    requires |s| > 0
    ensures r >= 0.0
  {
    assert EarliestDate(s) <= s[0].purchaseDate <= LatestDate(s);
    LatestDate(s) - EarliestDate(s)
  }

  /**
   * A date-sorted permutation of `s` starts at the earliest date of `s`
   * and ends at its latest.
   */
  lemma SortedEnds(s: seq<HistoricalPurchase>, t: seq<HistoricalPurchase>)
    requires |s| > 0
    requires SortedByDate(t) && multiset(t) == multiset(s)
    ensures |t| == |s|
    ensures t[0].purchaseDate == EarliestDate(s)
    ensures t[|t| - 1].purchaseDate == LatestDate(s)
  {
    calc {
      |t|;
      |multiset(t)|;
      |multiset(s)|;
      |s|;
    }
    SortedStartsEarliest(s, t);
    SortedEndsLatest(s, t);
  }

  lemma SortedStartsEarliest(s: seq<HistoricalPurchase>, t: seq<HistoricalPurchase>)
    requires |s| > 0 && |t| > 0
    requires SortedByDate(t) && multiset(t) == multiset(s)
    ensures t[0].purchaseDate == EarliestDate(s)
  {
    var lo :| 0 <= lo < |s| && s[lo].purchaseDate == EarliestDate(s);
    assert s[lo] in multiset(t);
    assert t[0] in multiset(s);
  }

  lemma SortedEndsLatest(s: seq<HistoricalPurchase>, t: seq<HistoricalPurchase>)
    requires |s| > 0 && |t| > 0
    requires SortedByDate(t) && multiset(t) == multiset(s)
    ensures t[|t| - 1].purchaseDate == LatestDate(s)
  {
    var hi :| 0 <= hi < |s| && s[hi].purchaseDate == LatestDate(s);
    assert s[hi] in multiset(t);
    assert t[|t| - 1] in multiset(s);
  }
}
