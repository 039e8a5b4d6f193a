/**
 * The anomaly scorer: feature extraction over incoming records, training of a
 * scaler and an outlier model, and prediction of the anomalous records of a
 * batch. The fitted scaler and model are abstract values that record what they
 * were fitted on; whether a row is an outlier is an oracle of the detector.
 */
module MlModel {
  import opened Wrappers
  import opened Text
  import opened Schema
  import opened Batches

  const CONTAMINATION: real := 0.01
  const RANDOM_STATE: int := 42
  const MIN_TRAINING_ROWS: nat := 2
  const FEATURE_COUNT: nat := 7

  /** A feature scaler: fresh, or fitted on a feature matrix. */
  datatype Scaler = UnfittedScaler | FittedScaler(basis: seq<seq<int>>)

  /**
   * An outlier model with its contamination rate and optional seed: fresh, or
   * fitted on the scaled form of a feature matrix.
   */
  datatype Forest =
    | UnfittedForest(contamination: real, randomState: Option<int>)
    | FittedForest(contamination: real, randomState: Option<int>, basis: seq<seq<int>>)

  /** The step of a training run that raises, if any. */
  datatype FitFailure = NoFailure | ScalerFitFails | ForestFitFails | SaveFails

  /** `int(v)` in Python: booleans count as 0 and 1, strings are parsed, `None` raises. */
  function PyInt(v: Value): Option<int>
  {
    match v
    case VInt(n) => Some(n)
    case VBool(b) => Some(if b then 1 else 0)
    case VStr(s) => ParseInt(s)
    case VNull => None
  }

  /** `int(packet.get(key, 0))`. */
  function IntFeature(fields: map<string, Value>, key: string): Option<int>
  {
    if key in fields then PyInt(fields[key]) else Some(0)
  }

  /** `packet.get('tcp_flags', '')` where a substring test needs a string. */
  function FlagsFeature(fields: map<string, Value>): Option<string>
  {
    if "tcp_flags" !in fields then Some("")
    else match fields["tcp_flags"]
      case VStr(s) => Some(s)
      case _ => None
  }

  /** Whether a record's `protocol` equals `name`; a missing key compares unequal. */
  function ProtocolIs(fields: map<string, Value>, name: string): nat
  {
    if "protocol" in fields && fields["protocol"] == VStr(name) then 1 else 0
  }

  /**
   * The feature row of one record, `[source_port, dest_port, packet_size,
   * isTCP, isUDP, hasS, hasF]`, or `None` when a field cannot be coerced.
   */
  function FeatureRow(p: RawPacket): (r: Option<seq<int>>)
    ensures r.Some? ==> |r.value| == FEATURE_COUNT
    ensures r.Some? ==> forall k :: 3 <= k < FEATURE_COUNT ==> 0 <= r.value[k] <= 1
    ensures r.Some? ==> p.Object?
    ensures r.Some? && "source_port" !in p.fields ==> r.value[0] == 0
    ensures r.Some? && "dest_port" !in p.fields ==> r.value[1] == 0
    ensures r.Some? && "packet_size" !in p.fields ==> r.value[2] == 0
    ensures r.Some? && "tcp_flags" !in p.fields ==> r.value[5] == 0 && r.value[6] == 0
  {
    match p
    case NonObject => None
    case Object(f) =>
      var sourcePort := IntFeature(f, "source_port");
      var destPort := IntFeature(f, "dest_port");
      var packetSize := IntFeature(f, "packet_size");
      var flags := FlagsFeature(f);
      if sourcePort.Some? && destPort.Some? && packetSize.Some? && flags.Some? then
        Some([sourcePort.value, destPort.value, packetSize.value,
              ProtocolIs(f, "TCP"), ProtocolIs(f, "UDP"),
              if 'S' in flags.value then 1 else 0,
              if 'F' in flags.value then 1 else 0])
      else
        None
  }

  /** The feature matrix of a batch: one row per coercible record, in input order. */
  function Features(ps: seq<RawPacket>): (rows: seq<seq<int>>)
    ensures |rows| <= |ps|
    ensures forall k :: 0 <= k < |rows| ==> |rows[k]| == FEATURE_COUNT
  {
    KeptSpec(FeatureRow, ps);
    FilterMap(FeatureRow, ps)
  }

  /** The batch position each feature row was extracted from. */
  function RowSources(ps: seq<RawPacket>): seq<nat>
  {
    Kept(FeatureRow, ps)
  }

  /**
   * Feature rows keep input order: row k comes from batch position
   * `RowSources(ps)[k]`, these positions increase, and a position appears
   * exactly when its record can be coerced.
   */
  lemma RowSourcesSpec(ps: seq<RawPacket>)
    ensures |RowSources(ps)| == |Features(ps)|
    ensures forall k :: 0 <= k < |RowSources(ps)| ==>
              RowSources(ps)[k] < |ps| && FeatureRow(ps[RowSources(ps)[k]]) == Some(Features(ps)[k])
    ensures forall k, l :: 0 <= k < l < |RowSources(ps)| ==> RowSources(ps)[k] < RowSources(ps)[l]
    ensures forall j :: 0 <= j < |ps| ==> (FeatureRow(ps[j]).Some? <==> j in RowSources(ps))
  {
    KeptSpec(FeatureRow, ps);
  }

  /** Every record of the batch is coercible exactly when no row is skipped. */
  lemma FeaturesComplete(ps: seq<RawPacket>)
    requires forall j :: 0 <= j < |ps| ==> FeatureRow(ps[j]).Some?
    ensures |Features(ps)| == |ps|
    ensures forall j :: 0 <= j < |ps| ==> Features(ps)[j] == FeatureRow(ps[j]).value
  {
    FilterMapComplete(FeatureRow, ps);
  }

  /** A scaler and a model that can transform and classify (neither raises): both fitted. */
  predicate Usable(scaler: Scaler, forest: Forest)
  {
    scaler.FittedScaler? && forest.FittedForest?
  }

  /** The rows the model classifies as outliers (prediction -1), by row index. */
  function OutlierIndices(rows: seq<seq<int>>, scaler: Scaler, forest: Forest,
                          outlier: (Scaler, Forest, seq<int>) -> bool): (r: seq<nat>)
    ensures forall k :: 0 <= k < |r| ==> r[k] < |rows|
    ensures forall k, l :: 0 <= k < l < |r| ==> r[k] < r[l]
    ensures forall i :: 0 <= i < |rows| ==> (i in r <==> outlier(scaler, forest, rows[i]))
  {
    if rows == [] then []
    else
      var n := |rows| - 1;
      var prev := OutlierIndices(rows[..n], scaler, forest, outlier);
      assert forall i :: 0 <= i < n ==> rows[..n][i] == rows[i];
      if outlier(scaler, forest, rows[n]) then prev + [n] else prev
  }

  /**
   * What `predict` returns on a batch: `([], [])` when untrained, when no row
   * can be extracted, or when transforming or classifying raises; otherwise
   * the flagged row indices and, for each, the batch element at that index.
   */
  function Prediction(trained: bool, scaler: Scaler, forest: Forest,
                      outlier: (Scaler, Forest, seq<int>) -> bool,
                      packets: seq<RawPacket>): (r: (seq<RawPacket>, seq<nat>))
    ensures |r.0| == |r.1|
  {
    if !trained then ([], [])
    else
      var rows := Features(packets);
      if rows == [] || !Usable(scaler, forest) then ([], [])
      else
        var indices := OutlierIndices(rows, scaler, forest, outlier);
        (seq(|indices|, k requires 0 <= k < |indices| => packets[indices[k]]), indices)
  }

  /**
   * Nothing is flagged without a trained, usable detector or without rows;
   * otherwise exactly the rows the classifier calls outliers are flagged, by
   * strictly increasing row index, each paired with the batch element at that
   * index.
   */
  lemma PredictionSpec(trained: bool, scaler: Scaler, forest: Forest,
                       outlier: (Scaler, Forest, seq<int>) -> bool, packets: seq<RawPacket>)
    ensures var r := Prediction(trained, scaler, forest, outlier, packets);
            && (!trained || Features(packets) == [] || !Usable(scaler, forest) ==> r == ([], []))
            && |r.0| == |r.1|
            && (forall k :: 0 <= k < |r.1| ==> r.1[k] < |Features(packets)| && r.0[k] == packets[r.1[k]])
            && (forall k, l :: 0 <= k < l < |r.1| ==> r.1[k] < r.1[l])
            && (trained && Usable(scaler, forest) ==>
                  forall i :: 0 <= i < |Features(packets)| ==>
                    (i in r.1 <==> outlier(scaler, forest, Features(packets)[i])))
  {
  }

  /**
   * How training on the feature rows `rows` takes a detector from `model0`,
   * `scaler0` and `isTrained0` to `model`, `scaler` and `isTrained`, reporting
   * `ok`. Fewer than two rows: false, nothing changes. Otherwise the scaler is
   * replaced by a fresh one and fitted, then the model, then both are saved;
   * a step that fails reports false and keeps whatever was already replaced,
   * and only a run that completes sets `isTrained`.
   */
  predicate TrainedFrom(rows: seq<seq<int>>, failure: FitFailure, model0: Forest, scaler0: Scaler, isTrained0: bool,
                        ok: bool, model: Forest, scaler: Scaler, isTrained: bool)
  {
    if |rows| < MIN_TRAINING_ROWS then
      !ok && model == model0 && scaler == scaler0 && isTrained == isTrained0
    else match failure
      case NoFailure =>
        && ok && isTrained && scaler == FittedScaler(rows)
        && model == FittedForest(CONTAMINATION, Some(RANDOM_STATE), rows)
      case ScalerFitFails =>
        !ok && scaler == UnfittedScaler && model == model0 && isTrained == isTrained0
      case ForestFitFails =>
        && !ok && scaler == FittedScaler(rows)
        && model == UnfittedForest(CONTAMINATION, Some(RANDOM_STATE)) && isTrained == isTrained0
      case SaveFails =>
        && !ok && scaler == FittedScaler(rows)
        && model == FittedForest(CONTAMINATION, Some(RANDOM_STATE), rows) && isTrained == isTrained0
  }

  /**
   * Training reports success exactly when there are at least two rows and no
   * step fails; a success leaves a trained detector holding a scaler and a
   * forest fitted to those rows, and a failure never changes `isTrained`.
   */
  lemma TrainedFromSpec(rows: seq<seq<int>>, failure: FitFailure, model0: Forest, scaler0: Scaler, isTrained0: bool,
                        ok: bool, model: Forest, scaler: Scaler, isTrained: bool)
    requires TrainedFrom(rows, failure, model0, scaler0, isTrained0, ok, model, scaler, isTrained)
    ensures ok <==> |rows| >= MIN_TRAINING_ROWS && failure == NoFailure
    ensures ok ==> isTrained && scaler == FittedScaler(rows) && model == FittedForest(CONTAMINATION, Some(RANDOM_STATE), rows)
    ensures !ok ==> isTrained == isTrained0
  {
  }

  /** The process-wide detector: the current scaler and model, and whether it is trained. */
  class AnomalyDetector {
    var model: Forest
    var scaler: Scaler
    var isTrained: bool
    const outlier: (Scaler, Forest, seq<int>) -> bool

    /** A detector that loads the two saved artefacts, when both exist. */
    constructor (outlier: (Scaler, Forest, seq<int>) -> bool, modelFile: Option<Forest>, scalerFile: Option<Scaler>)
      ensures this.outlier == outlier
      ensures isTrained <==> modelFile.Some? && scalerFile.Some?
      ensures isTrained ==> model == modelFile.value && scaler == scalerFile.value
      ensures !isTrained ==> model == UnfittedForest(CONTAMINATION, None) && scaler == UnfittedScaler
    {
      this.outlier := outlier;
      model := UnfittedForest(CONTAMINATION, None);
      scaler := UnfittedScaler;
      isTrained := false;
      new;
      LoadModel(modelFile, scalerFile);
    }

    /**
     * Load the model, then the scaler. Trained only if both loaded; if either
     * file is missing, both are reset to fresh ones and the detector is untrained.
     */
    method LoadModel(modelFile: Option<Forest>, scalerFile: Option<Scaler>)
      modifies this
      ensures isTrained <==> modelFile.Some? && scalerFile.Some?
      ensures isTrained ==> model == modelFile.value && scaler == scalerFile.value
      ensures !isTrained ==> model == UnfittedForest(CONTAMINATION, None) && scaler == UnfittedScaler
    {
      if modelFile.Some? {
        model := modelFile.value;
        if scalerFile.Some? {
          scaler := scalerFile.value;
          isTrained := true;
          return;
        }
      }
      model := UnfittedForest(CONTAMINATION, None);
      scaler := UnfittedScaler;
      isTrained := false;
    }

    /** The feature matrix of a batch, skipping records that cannot be coerced. */
    method ExtractFeatures(packets: seq<RawPacket>) returns (features: seq<seq<int>>)
      ensures features == Features(packets)
    {
      features := [];
      var i := 0;
      while i < |packets|
        invariant 0 <= i <= |packets|
        invariant features == Features(packets[..i])
      {
        FilterMapSnoc(FeatureRow, packets, i);
        var feat := FeatureRow(packets[i]);
        if feat.Some? {
          features := features + [feat.value];
        }
        i := i + 1;
      }
      assert packets[..i] == packets;
    }

    /**
     * Train on a batch. Fewer than two rows: false, nothing changes. Otherwise
     * the scaler is replaced by a fresh one and fitted, then the model, then
     * both are saved; a step that raises returns false and keeps whatever was
     * already replaced, and only a run that completes sets `isTrained`.
     */
    method Train(packets: seq<RawPacket>, failure: FitFailure) returns (ok: bool)
      modifies this
      ensures TrainedFrom(Features(packets), failure, old(model), old(scaler), old(isTrained), ok, model, scaler, isTrained)
    {
      var features := ExtractFeatures(packets);
      if |features| < MIN_TRAINING_ROWS {
        return false;
      }
      scaler := UnfittedScaler;
      if failure == ScalerFitFails {
        return false;
      }
      scaler := FittedScaler(features);
      model := UnfittedForest(CONTAMINATION, Some(RANDOM_STATE));
      if failure == ForestFitFails {
        return false;
      }
      model := FittedForest(CONTAMINATION, Some(RANDOM_STATE), features);
      if failure == SaveFails {
        return false;
      }
      isTrained := true;
      return true;
    }

    /** The anomalous records of a batch and their feature-row indices. */
    method Predict(packets: seq<RawPacket>) returns (anomalousPackets: seq<RawPacket>, anomalousIndices: seq<nat>)
      ensures (anomalousPackets, anomalousIndices) == Prediction(isTrained, scaler, model, outlier, packets)
    {
      if !isTrained {
        return [], [];
      }
      var features := ExtractFeatures(packets);
      if |features| == 0 || !Usable(scaler, model) {
        return [], [];
      }
      anomalousIndices := OutlierIndices(features, scaler, model, outlier);
      anomalousPackets := seq(|anomalousIndices|, k requires 0 <= k < |anomalousIndices| => packets[anomalousIndices[k]]);
    }
  }
}
