/**
 * The purchase records the loader consumes and produces.
 *
 * A purchase date is a point in time counted in (possibly fractional) days
 * from a fixed epoch, so that `now - d` is what `(now - d).TotalDays` yields.
 * Decimal amounts are exact reals.
 */
module PurchaseData {

  /** One raw purchase row (HistoricalPurchaseData). */
  datatype HistoricalPurchase = HistoricalPurchase(
    customerId: string,
    customerName: string,
    purchaseDate: real,
    spend: real)

  /** One aggregated row handed to the trainer (AggregatedPurchaseData). */
  datatype AggregatedPurchase = AggregatedPurchase(
    customerId: string,
    customerName: string,
    averageDaysBetweenPurchases: real,
    totalSpend: real,
    purchaseFrequency: real,
    daysSinceLastPurchase: real)
}
