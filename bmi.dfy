/** The BMI calculator's arithmetic and tier cascade (app.py:453-468), over exact reals. */
module Bmi {

  /** The four tiers, lightest first. */
  datatype Tier = Underweight | Normal | Overweight | Obese

  /** `weight / ((height / 100) ** 2)` with the weight in kilograms and the height in centimetres. */
  function BodyMassIndex(weightKg: real, heightCm: real): (bmi: real)
    requires heightCm != 0.0
    ensures bmi * ((heightCm / 100.0) * (heightCm / 100.0)) == weightKg
    ensures weightKg > 0.0 ==> bmi > 0.0
  {
    var metres := heightCm / 100.0;
    SquarePositive(metres, metres * metres);
    weightKg / (metres * metres)
  }

  /** The square of a non-zero real is positive. */
  lemma SquarePositive(x: real, sq: real)
    requires x != 0.0 && sq == x * x
    ensures sq > 0.0
  {
    if x > 0.0 {
      ProductPositive(x, x, sq);
    } else {
      assert sq == (-x) * (-x);
      ProductPositive(-x, -x, sq);
    }
  }

  /** The product of two positive reals is positive. */
  lemma ProductPositive(x: real, y: real, p: real)
    requires x > 0.0 && y > 0.0 && p == x * y
    ensures p > 0.0
  {
  }

  /** The height input: whole centimetres, or whole feet and inches. */
  datatype HeightInput = Centimetres(cm: int) | FeetInches(feet: int, inches: int)

  /** The weight input: whole kilograms or whole pounds. */
  datatype WeightInput = Kilograms(kg: int) | Pounds(pounds: int)

  /** The bounds of the number widgets for each unit. */
  predicate HeightInRange(h: HeightInput) {
    match h
    case Centimetres(cm) => 50 <= cm <= 300
    case FeetInches(feet, inches) => 1 <= feet <= 8 && 0 <= inches <= 11
  }

  predicate WeightInRange(w: WeightInput) {
    match w
    case Kilograms(kg) => 10 <= kg <= 300
    case Pounds(pounds) => 20 <= pounds <= 660
  }

  /** Feet and inches in centimetres: a foot is twelve inches and an inch is 2.54 cm. */
  function FeetInchesToCm(feet: int, inches: int): (cm: real)
    ensures cm == (12 * feet + inches) as real * 2.54
  {
    feet as real * 30.48 + inches as real * 2.54
  }

  /** Pounds in kilograms, at 0.453592 kg to the pound. */
  function PoundsToKg(pounds: int): (kg: real)
    ensures pounds > 0 ==> kg > 0.0
    ensures pounds == 0 ==> kg == 0.0
  {
    pounds as real * 0.453592
  }

  /** A heavier weight in pounds is a heavier weight in kilograms. */
  lemma PoundsMonotone(p1: int, p2: int)
    requires p1 <= p2
    ensures PoundsToKg(p1) <= PoundsToKg(p2)
  {
  }

  /** The height in centimetres, whichever unit was chosen. */
  function HeightCm(h: HeightInput): (cm: real)
    ensures HeightInRange(h) ==> 30.48 <= cm <= 300.0
  {
    match h
    case Centimetres(cm) => cm as real
    case FeetInches(feet, inches) => FeetInchesToCm(feet, inches)
  }

  /** The weight in kilograms, whichever unit was chosen. */
  function WeightKg(w: WeightInput): (kg: real)
    ensures WeightInRange(w) ==> kg > 0.0
  {
    match w
    case Kilograms(kg) => kg as real
    case Pounds(pounds) => PoundsToKg(pounds)
  }

  /** What the page shows after "Calculate BMI": the index and its tier. */
  function Calculate(h: HeightInput, w: WeightInput): (r: (real, Tier))
    requires HeightInRange(h)
    ensures r.0 > 0.0 || !WeightInRange(w)
    ensures r.0 * ((HeightCm(h) / 100.0) * (HeightCm(h) / 100.0)) == WeightKg(w)
    ensures r.1 == TierOf(r.0)
  {
    var bmi := BodyMassIndex(WeightKg(w), HeightCm(h));
    (bmi, TierOf(bmi))
  }

  /** The `if`/`elif` cascade, half-open intervals with each boundary in the upper tier. */
  function TierOf(bmi: real): (t: Tier)
    ensures t == Underweight <==> bmi < 18.5
    ensures t == Normal <==> 18.5 <= bmi < 25.0
    ensures t == Overweight <==> 25.0 <= bmi < 30.0
    ensures t == Obese <==> 30.0 <= bmi
  {
    if bmi < 18.5 then Underweight
    else if 18.5 <= bmi < 25.0 then Normal
    else if 25.0 <= bmi < 30.0 then Overweight
    else Obese
  }

  /** The position of a tier, lightest first. */
  function Rank(t: Tier): nat {
    match t
    case Underweight => 0
    case Normal => 1
    case Overweight => 2
    case Obese => 3
  }

  /** The heading the page shows for a tier. */
  function Heading(t: Tier): string {
    match t
    case Underweight => "Underweight"
    case Normal => "Normal weight"
    case Overweight => "Overweight"
    case Obese => "Obese"
  }

  /** The advice line under the heading. */
  function Advice(t: Tier): string {
    match t
    case Underweight => "Consider consulting a nutritionist for healthy weight gain."
    case Normal => "Maintain your healthy lifestyle!"
    case Overweight => "Consider increasing physical activity and improving diet."
    case Obese => "Please consult with a healthcare provider for weight management options."
  }

  /** The tier boundaries fall into the upper tier. */
  lemma TierBoundaries()
    ensures TierOf(18.4999) == Underweight && TierOf(18.5) == Normal
    ensures TierOf(24.9999) == Normal && TierOf(25.0) == Overweight
    ensures TierOf(29.999) == Overweight && TierOf(30.0) == Obese
  {
  }

  /** A larger BMI never lands in a lighter tier. */
  lemma TierMonotone(a: real, b: real)
    requires a <= b
    ensures Rank(TierOf(a)) <= Rank(TierOf(b))
  {
  }

  /** At a fixed height, a heavier weight never lands in a lighter tier. */
  lemma HeavierNeverLighter(w1: real, w2: real, heightCm: real)
    requires heightCm != 0.0 && w1 <= w2
    ensures Rank(TierOf(BodyMassIndex(w1, heightCm))) <= Rank(TierOf(BodyMassIndex(w2, heightCm)))
  {
    var b1, b2 := BodyMassIndex(w1, heightCm), BodyMassIndex(w2, heightCm);
    var metres := heightCm / 100.0;
    var square := metres * metres;
    SquarePositive(metres, square);
    assert (b2 - b1) * square == w2 - w1 by {
      assert b1 * square == w1 && b2 * square == w2;
      assert (b2 - b1) * square == b2 * square - b1 * square;
    }
    NonNegativeFactor(b2 - b1, square);
    TierMonotone(b1, b2);
  }

  /** A product with a positive factor is non-negative only if the other factor is. */
  lemma NonNegativeFactor(a: real, h: real)
    requires h > 0.0 && a * h >= 0.0
    ensures a >= 0.0
  {
  }

  /** The form's defaults, 70 kg and 170 cm, give a normal weight. */
  lemma DefaultFormIsNormal()
    ensures TierOf(BodyMassIndex(70.0, 170.0)) == Normal
  {
    assert BodyMassIndex(70.0, 170.0) == 70.0 / 2.89;
  }

  /** Each tier has its own heading and its own advice. */
  lemma TierTextsDistinct()
    ensures forall s, t :: s != t ==> Heading(s) != Heading(t) && Advice(s) != Advice(t)
  {
  }
}
