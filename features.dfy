/**
 * The feature vectors `show_assessment` hands to the scalers: the diabetes form passed
 * through in a fixed order (app.py:309-312), and the heart form with its display labels
 * turned into integer codes (app.py:370-408). numpy stores both as floats, so a vector is
 * a `seq<real>`.
 */
module Features {
  import opened Wrappers

  /** The eight number inputs of the diabetes form. */
  datatype DiabetesForm = DiabetesForm(
    pregnancies: int, glucose: int, bloodPressure: int, skinThickness: int,
    insulin: int, bmi: real, diabetesPedigree: real, age: int)

  /** The diabetes feature vector, in the order the diabetes model was trained on. */
  function DiabetesVector(f: DiabetesForm): (v: seq<real>)
    ensures |v| == 8
  {
    [f.pregnancies as real, f.glucose as real, f.bloodPressure as real, f.skinThickness as real,
     f.insulin as real, f.bmi, f.diabetesPedigree, f.age as real]
  }

  /** `x` is a whole number, as an integer input becomes after numpy's float conversion. */
  predicate IsWhole(x: real) {
    x.Floor as real == x
  }

  /** Reads a diabetes form back out of a vector; fails on a wrong length or a fractional count. */
  function DecodeDiabetes(v: seq<real>): Option<DiabetesForm> {
    if |v| == 8 && IsWhole(v[0]) && IsWhole(v[1]) && IsWhole(v[2]) && IsWhole(v[3])
       && IsWhole(v[4]) && IsWhole(v[7])
    then Some(DiabetesForm(v[0].Floor, v[1].Floor, v[2].Floor, v[3].Floor, v[4].Floor, v[5], v[6], v[7].Floor))
    else None
  }

  /** Every field survives encoding: the vector determines the form. */
  lemma DiabetesRoundTrip(f: DiabetesForm)
    ensures DecodeDiabetes(DiabetesVector(f)) == Some(f)
  {
  }

  /** Every decodable vector is the encoding of the form it decodes to. */
  lemma DiabetesDecodeEncodes(v: seq<real>)
    requires DecodeDiabetes(v).Some?
    ensures DiabetesVector(DecodeDiabetes(v).value) == v
  {
  }

  /** The thirteen inputs of the heart form; the categorical ones are display labels. */
  datatype HeartForm = HeartForm(
    age: int, sex: string, chestPain: string, restingBp: int, cholesterol: int,
    fastingBloodSugar: string, restingEcg: string, maxHeartRate: int,
    exerciseAngina: string, stDepression: real, slope: string, majorVessels: int,
    thalassemia: string)

  /** Select-box options of the heart form, in display order (app.py:335-365). */
  const SexOptions := ["Male", "Female"]
  const ChestPainOptions := ["Typical angina", "Atypical angina", "Non-anginal pain", "Asymptomatic"]
  const YesNoOptions := ["No", "Yes"]
  const RestingEcgOptions := ["Normal", "ST-T wave abnormality", "Left ventricular hypertrophy"]
  const SlopeOptions := ["Upsloping", "Flat", "Downsloping"]
  const ThalassemiaOptions := ["Normal", "Fixed defect", "Reversible defect"]

  /** `cp_map`, `restecg_map`, `slope_map` and `thal_map` (app.py:372-402). */
  const ChestPainCodes: map<string, int> :=
    map["Typical angina" := 0, "Atypical angina" := 1, "Non-anginal pain" := 2, "Asymptomatic" := 3]
  const RestingEcgCodes: map<string, int> :=
    map["Normal" := 0, "ST-T wave abnormality" := 1, "Left ventricular hypertrophy" := 2]
  const SlopeCodes: map<string, int> :=
    map["Upsloping" := 0, "Flat" := 1, "Downsloping" := 2]
  const ThalassemiaCodes: map<string, int> :=
    map["Normal" := 0, "Fixed defect" := 1, "Reversible defect" := 2]

  /** The `KeyError` a dict lookup raises, carrying the missing label. */
  datatype EncodeError = KeyError(key: string)

  /** `1 if choice == yes else 0`. */
  function Flag(choice: string, yes: string): (b: int)
    ensures b == 0 || b == 1
    ensures b == 1 <==> choice == yes
  {
    if choice == yes then 1 else 0
  }

  /** `table[choice]`. */
  function Translate(table: map<string, int>, choice: string): (r: Result<int, EncodeError>)
    ensures r.Success? <==> choice in table
    ensures r.Success? ==> r.value == table[choice]
    ensures r.Failure? ==> r.error == KeyError(choice)
  {
    if choice in table then Success(table[choice]) else Failure(KeyError(choice))
  }

  /**
   * The heart feature vector: age, sex, cp, trestbps, chol, fbs, restecg, thalach, exang,
   * oldpeak, slope, ca, thal. The lookups run in source order, so the first unknown label
   * among chest pain, resting ECG, slope and thalassemia is the one reported.
   */
  function EncodeHeart(f: HeartForm): (r: Result<seq<real>, EncodeError>)
    ensures r.Success? ==> |r.value| == 13
  {
    var sex := Flag(f.sex, "Male");
    var cp :- Translate(ChestPainCodes, f.chestPain);
    var fbs := Flag(f.fastingBloodSugar, "Yes");
    var restecg :- Translate(RestingEcgCodes, f.restingEcg);
    var exang := Flag(f.exerciseAngina, "Yes");
    var slope :- Translate(SlopeCodes, f.slope);
    var thal :- Translate(ThalassemiaCodes, f.thalassemia);
    Success([f.age as real, sex as real, cp as real, f.restingBp as real, f.cholesterol as real,
             fbs as real, restecg as real, f.maxHeartRate as real, exang as real, f.stDepression,
             slope as real, f.majorVessels as real, thal as real])
  }

  /** The labels each code table accepts. */
  predicate KnownLabels(f: HeartForm) {
    f.chestPain in ChestPainCodes && f.restingEcg in RestingEcgCodes &&
    f.slope in SlopeCodes && f.thalassemia in ThalassemiaCodes
  }

  /** A form as its select boxes can produce it: every label is one of the displayed options. */
  predicate FromOptions(f: HeartForm) {
    f.sex in SexOptions && f.chestPain in ChestPainOptions && f.fastingBloodSugar in YesNoOptions &&
    f.restingEcg in RestingEcgOptions && f.exerciseAngina in YesNoOptions &&
    f.slope in SlopeOptions && f.thalassemia in ThalassemiaOptions
  }

  /** A table maps distinct labels to distinct codes. */
  predicate Injective(table: map<string, int>) {
    forall a, b :: a in table && b in table && a != b ==> table[a] != table[b]
  }

  /** Each code table accepts exactly its select box's options and codes each by its position. */
  lemma CodeTablesFollowOptions()
    ensures ChestPainCodes.Keys == set l | l in ChestPainOptions
    ensures RestingEcgCodes.Keys == set l | l in RestingEcgOptions
    ensures SlopeCodes.Keys == set l | l in SlopeOptions
    ensures ThalassemiaCodes.Keys == set l | l in ThalassemiaOptions
    ensures forall i :: 0 <= i < |ChestPainOptions| ==> ChestPainCodes[ChestPainOptions[i]] == i
    ensures forall i :: 0 <= i < |RestingEcgOptions| ==> RestingEcgCodes[RestingEcgOptions[i]] == i
    ensures forall i :: 0 <= i < |SlopeOptions| ==> SlopeCodes[SlopeOptions[i]] == i
    ensures forall i :: 0 <= i < |ThalassemiaOptions| ==> ThalassemiaCodes[ThalassemiaOptions[i]] == i
  {
  }

  /** No two labels share a code, and the codes are 0..3 for chest pain and 0..2 for the others. */
  lemma CodeTablesInjectiveAndBounded()
    ensures Injective(ChestPainCodes) && forall l | l in ChestPainCodes :: 0 <= ChestPainCodes[l] <= 3
    ensures Injective(RestingEcgCodes) && forall l | l in RestingEcgCodes :: 0 <= RestingEcgCodes[l] <= 2
    ensures Injective(SlopeCodes) && forall l | l in SlopeCodes :: 0 <= SlopeCodes[l] <= 2
    ensures Injective(ThalassemiaCodes) && forall l | l in ThalassemiaCodes :: 0 <= ThalassemiaCodes[l] <= 2
  {
    CodeTablesFollowOptions();
    PositionalCoding(ChestPainOptions, ChestPainCodes);
    PositionalCoding(RestingEcgOptions, RestingEcgCodes);
    PositionalCoding(SlopeOptions, SlopeCodes);
    PositionalCoding(ThalassemiaOptions, ThalassemiaCodes);
  }

  /** A table whose labels are a list's entries, each coded by its position, is injective onto the positions. */
  lemma PositionalCoding(options: seq<string>, table: map<string, int>)
    requires table.Keys == set l | l in options
    requires forall i :: 0 <= i < |options| ==> table[options[i]] == i
    ensures Injective(table)
    ensures forall l | l in table :: 0 <= table[l] < |options|
  {
    forall l | l in table
      ensures 0 <= table[l] < |options| && options[table[l]] == l
    {
      var i :| 0 <= i < |options| && options[i] == l;
    }
  }

  /** Encoding fails exactly when a looked-up label is unknown, and reports the first such label. */
  lemma HeartEncodingFailure(f: HeartForm)
    ensures EncodeHeart(f).Failure? <==> !KnownLabels(f)
    ensures f.chestPain !in ChestPainCodes ==> EncodeHeart(f) == Failure(KeyError(f.chestPain))
    ensures f.chestPain in ChestPainCodes && f.restingEcg !in RestingEcgCodes ==>
      EncodeHeart(f) == Failure(KeyError(f.restingEcg))
    ensures f.chestPain in ChestPainCodes && f.restingEcg in RestingEcgCodes && f.slope !in SlopeCodes ==>
      EncodeHeart(f) == Failure(KeyError(f.slope))
    ensures (f.chestPain in ChestPainCodes && f.restingEcg in RestingEcgCodes && f.slope in SlopeCodes &&
             f.thalassemia !in ThalassemiaCodes) ==> EncodeHeart(f) == Failure(KeyError(f.thalassemia))
  {
  }

  /**
   * Sex, fasting blood sugar and exercise angina never fail: each is 0 or 1, and 1 only
   * for exactly "Male" or "Yes" (so "male" or "Y" also give 0).
   */
  lemma BinaryFeatures(f: HeartForm)
    requires KnownLabels(f)
    ensures var v := EncodeHeart(f).value;
      v[1] in {0.0, 1.0} && (v[1] == 1.0 <==> f.sex == "Male") &&
      v[5] in {0.0, 1.0} && (v[5] == 1.0 <==> f.fastingBloodSugar == "Yes") &&
      v[8] in {0.0, 1.0} && (v[8] == 1.0 <==> f.exerciseAngina == "Yes")
  {
  }

  /** The categorical codes in the vector stay within their tables' ranges. */
  lemma CategoricalFeaturesInRange(f: HeartForm)
    requires KnownLabels(f)
    ensures var v := EncodeHeart(f).value;
      0.0 <= v[2] <= 3.0 && 0.0 <= v[6] <= 2.0 && 0.0 <= v[10] <= 2.0 && 0.0 <= v[12] <= 2.0
  {
  }

  /** The option whose position is the whole number `x`, if there is one. */
  function OptionAt(options: seq<string>, x: real): Option<string> {
    if IsWhole(x) && 0 <= x.Floor < |options| then Some(options[x.Floor]) else None
  }

  /** The label a 0/1 flag stands for. */
  function FlagLabel(x: real, yes: string, no: string): Option<string> {
    if x == 1.0 then Some(yes) else if x == 0.0 then Some(no) else None
  }

  /** Reads a heart form back out of a vector, taking codes back to their select-box options. */
  function DecodeHeart(v: seq<real>): Option<HeartForm> {
    if |v| != 13 || !(IsWhole(v[0]) && IsWhole(v[3]) && IsWhole(v[4]) && IsWhole(v[7]) && IsWhole(v[11]))
    then None
    else
      match (FlagLabel(v[1], "Male", "Female"), OptionAt(ChestPainOptions, v[2]),
             FlagLabel(v[5], "Yes", "No"), OptionAt(RestingEcgOptions, v[6]),
             FlagLabel(v[8], "Yes", "No"), OptionAt(SlopeOptions, v[10]),
             OptionAt(ThalassemiaOptions, v[12]))
      case (Some(sex), Some(cp), Some(fbs), Some(restecg), Some(exang), Some(slope), Some(thal)) =>
        Some(HeartForm(v[0].Floor, sex, cp, v[3].Floor, v[4].Floor, fbs, restecg, v[7].Floor,
                       exang, v[9], slope, v[11].Floor, thal))
      case _ => None
  }

  /** A table that codes each option by its position is undone by `OptionAt`. */
  lemma OptionAtCode(options: seq<string>, table: map<string, int>, choice: string)
    requires forall i :: 0 <= i < |options| ==> options[i] in table && table[options[i]] == i
    requires choice in options
    ensures choice in table && OptionAt(options, table[choice] as real) == Some(choice)
  {
    var i :| 0 <= i < |options| && options[i] == choice;
    assert table[choice] == i;
  }

  /** A flag taken from one of two labels is undone by `FlagLabel`. */
  lemma FlagLabelOfFlag(choice: string, yes: string, no: string)
    requires choice == yes || choice == no
    requires yes != no
    ensures FlagLabel(Flag(choice, yes) as real, yes, no) == Some(choice)
  {
  }

  /**
   * For a form its select boxes can produce, encoding succeeds and loses nothing: every
   * numeric field passes through and every label can be read back from its code.
   */
  lemma HeartRoundTrip(f: HeartForm)
    requires FromOptions(f)
    ensures EncodeHeart(f).Success?
    ensures DecodeHeart(EncodeHeart(f).value) == Some(f)
  {
    CodeTablesFollowOptions();
    OptionAtCode(ChestPainOptions, ChestPainCodes, f.chestPain);
    OptionAtCode(RestingEcgOptions, RestingEcgCodes, f.restingEcg);
    OptionAtCode(SlopeOptions, SlopeCodes, f.slope);
    OptionAtCode(ThalassemiaOptions, ThalassemiaCodes, f.thalassemia);
    FlagLabelOfFlag(f.sex, "Male", "Female");
    FlagLabelOfFlag(f.fastingBloodSugar, "Yes", "No");
    FlagLabelOfFlag(f.exerciseAngina, "Yes", "No");
    var v := [f.age as real, Flag(f.sex, "Male") as real, ChestPainCodes[f.chestPain] as real,
              f.restingBp as real, f.cholesterol as real, Flag(f.fastingBloodSugar, "Yes") as real,
              RestingEcgCodes[f.restingEcg] as real, f.maxHeartRate as real,
              Flag(f.exerciseAngina, "Yes") as real, f.stDepression, SlopeCodes[f.slope] as real,
              f.majorVessels as real, ThalassemiaCodes[f.thalassemia] as real];
    assert EncodeHeart(f) == Success(v);
    assert DecodeHeart(v) == Some(f);
  }
}
