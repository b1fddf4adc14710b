/**
 * The records exchanged with the prediction model. Single-precision and
 * decimal fields are exact reals.
 */
module PredictionData {

  /** Feature vector of one customer (PurchasePredictionInput). */
  datatype PredictionInput = PredictionInput(
    customerId: string,
    customerName: string,
    daysSinceLastPurchase: real,
    daysBetweenPurchases: real,
    cumulativeSpend: real,
    purchaseFrequency: real)

  /** What the model, and then the predictor, answers (PurchasePredictionOutput). */
  datatype PredictionOutput = PredictionOutput(
    customerId: string,
    customerName: string,
    expectedSpend: real,
    purchaseFrequency: real,
    isBaseline: bool)

  /** Dataset-wide fallback averages stored beside the model (ModelMetadata). */
  datatype ModelMetadata = ModelMetadata(averageSpend: real, averageFrequency: real)
}
