/**
 The price estimator: a fixed 9-slot feature vector is assembled from the four
 user-derived inputs and five placeholder constants, and handed to the stored
 regression model. Loading the model and running it are outside the model of
 the page; both are a parameter that can fail.
 */
module Predictor {

  const FeatureCount: nat := 9

  /** Positions of the user-derived features. */
  const FuelSlot: nat := 3
  const TransmissionSlot: nat := 4
  const EngineSlot: nat := 6
  const SeatsSlot: nat := 8

  /** The placeholder features, by position; they do not depend on any input. */
  const Placeholders: map<nat, real> := map[0 := 2018.0, 1 := 1.0, 2 := 40000.0, 5 := 19.70, 7 := 86.30]

  /** What running the stored model on one feature vector yields. */
  datatype Inference = Outputs(values: seq<real>) | Raised(reason: string)

  /** The stored model as read from disk on a call: unreadable, or a regressor. */
  datatype Artifact = Unreadable(reason: string) | Regressor(predict: seq<real> -> Inference)

  /** The estimator's answer: the model's outputs, or the "no result" sentinel with the error shown. */
  datatype Prediction = Predicted(values: seq<real>) | NoResult(reason: string)

  /** The feature vector handed to the model. */
  function Features(fuelCode: int, transmissionCode: int, engine: int, seats: int): (v: seq<real>)
    ensures |v| == FeatureCount
    ensures v[FuelSlot] == fuelCode as real
    ensures v[TransmissionSlot] == transmissionCode as real
    ensures v[EngineSlot] == engine as real
    ensures v[SeatsSlot] == seats as real
    ensures forall i :: i in Placeholders ==> i < |v| && v[i] == Placeholders[i]
  {
    [2018.0, 1.0, 40000.0, fuelCode as real, transmissionCode as real, 19.70, engine as real, 86.30, seats as real]
  }

  /** Each of the nine slots 0..8 is exactly one of: an input slot, a placeholder slot. */
  lemma SlotsPartitioned()
    ensures Placeholders.Keys !! {FuelSlot, TransmissionSlot, EngineSlot, SeatsSlot}
    ensures Placeholders.Keys + {FuelSlot, TransmissionSlot, EngineSlot, SeatsSlot}
            == {0, 1, 2, 3, 4, 5, 6, 7, 8}
  {
  }

  /** The placeholders are the same whatever the inputs. */
  lemma PlaceholdersIgnoreInputs(f1: int, t1: int, e1: int, s1: int, f2: int, t2: int, e2: int, s2: int)
    ensures forall i :: i in Placeholders ==> Features(f1, t1, e1, s1)[i] == Features(f2, t2, e2, s2)[i]
  {
  }

  /** Distinct inputs give distinct vectors: the four inputs can be read back from their slots. */
  lemma FeaturesInjective(f1: int, t1: int, e1: int, s1: int, f2: int, t2: int, e2: int, s2: int)
    requires Features(f1, t1, e1, s1) == Features(f2, t2, e2, s2)
    ensures f1 == f2 && t1 == t2 && e1 == e2 && s1 == s2
  {
    var v := Features(f1, t1, e1, s1);
    assert v[FuelSlot] == f1 as real == f2 as real;
    assert v[TransmissionSlot] == t1 as real == t2 as real;
    assert v[EngineSlot] == e1 as real == e2 as real;
    assert v[SeatsSlot] == s1 as real == s2 as real;
  }

  /**
   Runs the stored model once on the feature vector. An unreadable artifact or
   an inference that raises gives the "no result" sentinel carrying the error.
   */
  function ModelPred(artifact: Artifact, fuelCode: int, transmissionCode: int, engine: int, seats: int): (p: Prediction)
    ensures p.Predicted? <==> artifact.Regressor? && artifact.predict(Features(fuelCode, transmissionCode, engine, seats)).Outputs?
    ensures p.Predicted? ==> p.values == artifact.predict(Features(fuelCode, transmissionCode, engine, seats)).values
    ensures artifact.Unreadable? ==> p == NoResult(artifact.reason)
    ensures artifact.Regressor? && artifact.predict(Features(fuelCode, transmissionCode, engine, seats)).Raised? ==>
      p == NoResult(artifact.predict(Features(fuelCode, transmissionCode, engine, seats)).reason)
  {
    match artifact
    case Unreadable(reason) => NoResult(reason)
    case Regressor(predict) =>
      match predict(Features(fuelCode, transmissionCode, engine, seats))
      case Outputs(values) => Predicted(values)
      case Raised(reason) => NoResult(reason)
  }
}
