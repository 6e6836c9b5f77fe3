/**
 * The assessment step of `show_assessment` (app.py:309-326, 405-422): scale the feature
 * vector, ask the classifier for its label and its positive-class probability, and pick
 * the high- or low-risk message from the classifier's own label.
 */
module Risk {
  import opened Wrappers
  import opened Features

  datatype Kind = Diabetes | HeartDisease

  /**
   * A loaded scaler and classifier: `transform`, `predict` and column 1 of
   * `predict_proba`. Their behaviour is whatever the pre-trained artifacts do.
   */
  datatype Model = Model(
    transform: seq<real> -> seq<real>,
    predict: seq<real> -> int,
    positiveProbability: seq<real> -> real)

  /** What the page shows: the risk tier, the probability, and the two message lines. */
  datatype Assessment = Assessment(kind: Kind, highRisk: bool, probability: real, verdict: string, advice: string)

  /** The headline, without its formatted percentage. */
  function Verdict(kind: Kind, highRisk: bool): string {
    match (kind, highRisk)
    case (Diabetes, true) => "High risk of diabetes"
    case (Diabetes, false) => "Low risk of diabetes"
    case (HeartDisease, true) => "High risk of heart disease"
    case (HeartDisease, false) => "Low risk of heart disease"
  }

  /** The line written under the headline. */
  function Advice(kind: Kind, highRisk: bool): string {
    match (kind, highRisk)
    case (Diabetes, true) => "Consider consulting a doctor and making lifestyle changes."
    case (Diabetes, false) => "Maintain healthy habits to keep your risk low."
    case (HeartDisease, true) => "Please consult a cardiologist for further evaluation."
    case (HeartDisease, false) => "Continue maintaining heart-healthy habits."
  }

  /** Scales `features`, classifies them, and branches on `prediction[0] == 1`. */
  function Classify(kind: Kind, features: seq<real>, model: Model): (a: Assessment)
    ensures a.kind == kind
    ensures a.highRisk <==> model.predict(model.transform(features)) == 1
    ensures a.probability == model.positiveProbability(model.transform(features))
  {
    var scaled := model.transform(features);
    var highRisk := model.predict(scaled) == 1;
    Assessment(kind, highRisk, model.positiveProbability(scaled), Verdict(kind, highRisk), Advice(kind, highRisk))
  }

  /** The diabetes assessment; it cannot fail before the artifacts are called. */
  function AssessDiabetes(f: DiabetesForm, model: Model): (a: Assessment)
    ensures a.kind == Diabetes
    ensures a.highRisk <==> model.predict(model.transform(DiabetesVector(f))) == 1
    ensures a.probability == model.positiveProbability(model.transform(DiabetesVector(f)))
    ensures a.verdict == Verdict(Diabetes, a.highRisk) && a.advice == Advice(Diabetes, a.highRisk)
  {
    Classify(Diabetes, DiabetesVector(f), model)
  }

  /** The heart assessment; an unknown label raises before the scaler is reached. */
  function AssessHeart(f: HeartForm, model: Model): (r: Result<Assessment, EncodeError>)
    ensures r.Success? ==> EncodeHeart(f).Success? && r.value.kind == HeartDisease
    ensures r.Success? ==>
      (r.value.highRisk <==> model.predict(model.transform(EncodeHeart(f).value)) == 1) &&
      r.value.probability == model.positiveProbability(model.transform(EncodeHeart(f).value))
    ensures r.Success? ==>
      r.value.verdict == Verdict(HeartDisease, r.value.highRisk) && r.value.advice == Advice(HeartDisease, r.value.highRisk)
  {
    var features :- EncodeHeart(f);
    Success(Classify(HeartDisease, features, model))
  }

  /** The high-risk messages go with exactly the label 1; every other label gets the low-risk ones. */
  lemma MessagesFollowLabel(kind: Kind, features: seq<real>, model: Model)
    ensures var a := Classify(kind, features, model);
      (a.verdict == Verdict(kind, true) <==> model.predict(model.transform(features)) == 1) &&
      (a.advice == Advice(kind, true) <==> model.predict(model.transform(features)) == 1)
  {
  }

  /** The four headlines differ, and so do the four advice lines, so the page tells the outcomes apart. */
  lemma MessagesDistinct()
    ensures forall k1, h1, k2, h2 :: (k1, h1) != (k2, h2) ==> Verdict(k1, h1) != Verdict(k2, h2)
    ensures forall k1, h1, k2, h2 :: (k1, h1) != (k2, h2) ==> Advice(k1, h1) != Advice(k2, h2)
  {
  }

  /** An encoding error is what the heart assessment reports, unchanged; otherwise it classifies the encoded vector. */
  lemma HeartAssessmentPropagates(f: HeartForm, model: Model)
    ensures AssessHeart(f, model).Failure? <==> !KnownLabels(f)
    ensures AssessHeart(f, model).Failure? ==> AssessHeart(f, model).error == EncodeHeart(f).error
    ensures AssessHeart(f, model).Success? ==>
      AssessHeart(f, model).value == Classify(HeartDisease, EncodeHeart(f).value, model)
  {
    HeartEncodingFailure(f);
  }

  /** Every form the heart page's select boxes can produce is assessed. */
  lemma HeartAssessmentTotalOnOptions(f: HeartForm, model: Model)
    requires FromOptions(f)
    ensures AssessHeart(f, model).Success?
  {
    HeartRoundTrip(f);
  }
}
