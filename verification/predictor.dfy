/**
 * The predictor: loads a trained model with its metadata and turns the
 * model's raw answer for a customer into the customer-facing prediction,
 * falling back to the dataset-wide averages when the model answers
 * (near) zero for both spend and frequency.
 *
 * The file system, ML.NET's model loader, the JSON reader and the
 * prediction engine are parameters: `ArtifactStore` for the first three,
 * `predict` for the last.
 */
module Predictor {
  import opened Results
  import opened Numerals
  import opened PredictionData
  import FileManager

  /**
   * The single-precision literal `0.01f` the cold-start test compares
   * against, written as its exact value 5368709 / 2^29.
   */
  const ColdStartThreshold: real := 0.00999999977648258209228515625

  datatype PredictError =
    | InvalidArgument(paramName: string)  // ArgumentException
    | FileNotFound(fileName: string)      // FileNotFoundException

  /**
   * What loading sees of the outside world: the application base directory,
   * `File.Exists`, the model loader and the metadata reader.
   */
  datatype ArtifactStore<M> = ArtifactStore(
    appBase: string,
    fileExists: string -> bool,
    loadModel: string -> M,
    readMetadata: string -> ModelMetadata)

  datatype LoadedModel<M> = LoadedModel(model: M, metadata: ModelMetadata)

  /** Both raw outputs fall below the threshold: a cold start. */
  predicate IsColdStart(raw: PredictionOutput) {
    raw.expectedSpend < ColdStartThreshold && raw.purchaseFrequency < ColdStartThreshold
  }

  /**
   * LoadModel: the model file is checked, and loaded, before the metadata
   * file; the first missing one is reported.
   */
  function LoadModel<M>(store: ArtifactStore<M>, modelName: string, predictionMonthsWindow: Int32): (r: Result<LoadedModel<M>, PredictError>)
    ensures var dir := FileManager.TrainingDataPath(store.appBase, modelName, predictionMonthsWindow);
      var modelFile := dir + [FileManager.Separator] + FileManager.ModelFileName;
      var metadataFile := dir + [FileManager.Separator] + FileManager.MetadataFileName;
      && (r.Success? <==> store.fileExists(modelFile) && store.fileExists(metadataFile))
      && (!store.fileExists(modelFile) ==> r == Failure(FileNotFound(modelFile)))
      && (store.fileExists(modelFile) && !store.fileExists(metadataFile) ==> r == Failure(FileNotFound(metadataFile)))
      && (r.Success? ==> r.value == LoadedModel(store.loadModel(modelFile), store.readMetadata(metadataFile)))
  {
    var paths := FileManager.GetFilePaths(store.appBase, modelName, predictionMonthsWindow);
    if !store.fileExists(paths.modelPath) then
      Failure(FileNotFound(paths.modelPath))
    else
      var model := store.loadModel(paths.modelPath);
      if !store.fileExists(paths.metadataPath) then
        Failure(FileNotFound(paths.metadataPath))
      else
        Success(LoadedModel(model, store.readMetadata(paths.metadataPath)))
  }

  /**
   * The private PredictSingleCustomer: a cold-start answer is replaced by the
   * metadata averages under the input's identity and flagged as a baseline;
   * any other answer is returned as the model gave it, flagged as not one.
   */
  function Arbitrate<M>(input: PredictionInput, loaded: LoadedModel<M>, predict: (M, PredictionInput) -> PredictionOutput): (r: PredictionOutput)
    ensures var raw := predict(loaded.model, input);
      r.isBaseline <==> raw.expectedSpend < ColdStartThreshold && raw.purchaseFrequency < ColdStartThreshold
    ensures r.isBaseline ==>
      && r.customerId == input.customerId
      && r.customerName == input.customerName
      && r.expectedSpend == loaded.metadata.averageSpend
      && r.purchaseFrequency == loaded.metadata.averageFrequency
    ensures !r.isBaseline ==> r == predict(loaded.model, input).(isBaseline := false)
  {
    var averageSpend := loaded.metadata.averageSpend;
    var averageFrequency := loaded.metadata.averageFrequency;
    var prediction := predict(loaded.model, input);
    if IsColdStart(prediction) then
      PredictionOutput(
        customerId := input.customerId,
        customerName := input.customerName,
        expectedSpend := averageSpend,
        purchaseFrequency := averageFrequency,
        isBaseline := true)
    else
      prediction.(isBaseline := false)
  }

  /** The public PredictSingleCustomer: load, then arbitrate. */
  function PredictSingleCustomer<M>(
    store: ArtifactStore<M>, predict: (M, PredictionInput) -> PredictionOutput,
    input: PredictionInput, modelName: string, predictionMonthsWindow: Int32): (r: Result<PredictionOutput, PredictError>)
    ensures var loaded := LoadModel(store, modelName, predictionMonthsWindow);
      && (r.Success? <==> loaded.Success?)
      && (r.Failure? ==> r.error == loaded.error)
      && (r.Success? ==> r.value == Arbitrate(input, loaded.value, predict))
  {
    match LoadModel(store, modelName, predictionMonthsWindow)
    case Failure(e) => Failure(e)
    case Success(loaded) => Success(Arbitrate(input, loaded, predict))
  }

  /** Arbitrates every input, in order, against one loaded model. */
  function ArbitrateAll<M>(inputs: seq<PredictionInput>, loaded: LoadedModel<M>, predict: (M, PredictionInput) -> PredictionOutput): (r: seq<PredictionOutput>)
    ensures |r| == |inputs|
    ensures forall i | 0 <= i < |inputs| :: r[i] == Arbitrate(inputs[i], loaded, predict)
  {
    if |inputs| == 0 then []
    else [Arbitrate(inputs[0], loaded, predict)] + ArbitrateAll(inputs[1..], loaded, predict)
  }

  /**
   * PredictMultipleCustomer: an empty batch is rejected before anything is
   * loaded; otherwise the model is loaded once and every input is arbitrated
   * against it, one output per input, in input order.
   */
  function PredictMultipleCustomer<M>(
    store: ArtifactStore<M>, predict: (M, PredictionInput) -> PredictionOutput,
    inputs: seq<PredictionInput>, modelName: string, predictionMonthsWindow: Int32): (r: Result<seq<PredictionOutput>, PredictError>)
    ensures |inputs| == 0 ==> r == Failure(InvalidArgument("inputs"))
    ensures |inputs| > 0 ==>
      var loaded := LoadModel(store, modelName, predictionMonthsWindow);
      && (r.Success? <==> loaded.Success?)
      && (r.Failure? ==> r.error == loaded.error)
      && (r.Success? ==> |r.value| == |inputs|)
      && (r.Success? ==> forall i | 0 <= i < |inputs| :: r.value[i] == Arbitrate(inputs[i], loaded.value, predict))
  {
    if |inputs| == 0 then
      Failure(InvalidArgument("inputs"))
    else
      match LoadModel(store, modelName, predictionMonthsWindow)
      case Failure(e) => Failure(e)
      case Success(loaded) => Success(ArbitrateAll(inputs, loaded, predict))
  }

  /**
   * A batch agrees, input by input, with single-customer calls on the same
   * artifacts: it fails exactly when they do, with the same error, and
   * otherwise yields what each of them yields.
   */
  lemma BatchAgreesWithSingle<M>(
    store: ArtifactStore<M>, predict: (M, PredictionInput) -> PredictionOutput,
    inputs: seq<PredictionInput>, modelName: string, predictionMonthsWindow: Int32)
    requires |inputs| > 0
    ensures var batch := PredictMultipleCustomer(store, predict, inputs, modelName, predictionMonthsWindow);
      forall i | 0 <= i < |inputs| ::
        var single := PredictSingleCustomer(store, predict, inputs[i], modelName, predictionMonthsWindow);
        && (batch.Success? <==> single.Success?)
        && (batch.Failure? ==> batch.error == single.error)
        && (batch.Success? ==> batch.value[i] == single.value)
  {
  }

  /**
   * Splitting a batch changes nothing: the outputs for `a + b` are those for
   * `a` followed by those for `b`.
   */
  lemma BatchSplits<M>(
    store: ArtifactStore<M>, predict: (M, PredictionInput) -> PredictionOutput,
    a: seq<PredictionInput>, b: seq<PredictionInput>, modelName: string, predictionMonthsWindow: Int32)
    requires |a| > 0 && |b| > 0
    ensures var whole := PredictMultipleCustomer(store, predict, a + b, modelName, predictionMonthsWindow);
      var left := PredictMultipleCustomer(store, predict, a, modelName, predictionMonthsWindow);
      var right := PredictMultipleCustomer(store, predict, b, modelName, predictionMonthsWindow);
      && (whole.Success? <==> left.Success? && right.Success?)
      && (whole.Success? ==> whole.value == left.value + right.value)
  {
    match LoadModel(store, modelName, predictionMonthsWindow)
    case Failure(_) =>
    case Success(loaded) => ArbitrateAllSplits(a, b, loaded, predict);
  }

  lemma ArbitrateAllSplits<M>(a: seq<PredictionInput>, b: seq<PredictionInput>, loaded: LoadedModel<M>, predict: (M, PredictionInput) -> PredictionOutput)
    ensures ArbitrateAll(a + b, loaded, predict) == ArbitrateAll(a, loaded, predict) + ArbitrateAll(b, loaded, predict)
  {
    var whole := ArbitrateAll(a + b, loaded, predict);
    var outputs := ArbitrateAll(a, loaded, predict) + ArbitrateAll(b, loaded, predict);
    forall i | 0 <= i < |a| + |b| ensures whole[i] == outputs[i] {
      if i >= |a| {
        assert (a + b)[i] == b[i - |a|];
      }
    }
  }

  /**
   * The predictor never hands out a cold-start pair of its own making: an
   * output below the threshold on both values is a baseline, and then the
   * stored averages themselves are below it.
   */
  lemma NoColdStartLeaks<M>(input: PredictionInput, loaded: LoadedModel<M>, predict: (M, PredictionInput) -> PredictionOutput)
    ensures var r := Arbitrate(input, loaded, predict);
      IsColdStart(r) ==>
        && r.isBaseline
        && loaded.metadata.averageSpend < ColdStartThreshold
        && loaded.metadata.averageFrequency < ColdStartThreshold
  {
  }
}
