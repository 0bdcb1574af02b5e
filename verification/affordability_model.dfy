/** The affordability pipeline of `affordability_model.py`: training-data
    and listing loading, the safe-rent prediction around an already fitted
    linear model, and the recommendation filter. */
module AffordabilityModel {
  import opened Wrappers
  import opened Seqs
  import opened Numerals
  import opened Tables

  const SAFE_RENT := "safe_rent"

  const TRAINING_COLUMNS: seq<string> :=
    ["tuition", "bank_balance", "part_time_income", "internship_income",
     "scholarships", "loans", "months", "safe_rent"]

  /** The seven feature columns, in the order the model was fitted on. */
  const FEATURES: seq<string> :=
    ["tuition", "bank_balance", "part_time_income", "internship_income",
     "scholarships", "loans", "months"]

  function TrainingRow(tuition: real, bank: real, partTime: real, internship: real,
                       scholarships: real, loans: real, months: real, safeRent: real): Row
  {
    map["tuition" := Num(tuition), "bank_balance" := Num(bank),
        "part_time_income" := Num(partTime), "internship_income" := Num(internship),
        "scholarships" := Num(scholarships), "loans" := Num(loans),
        "months" := Num(months), "safe_rent" := Num(safeRent)]
  }

  /** The built-in training set used when the historical file is absent. */
  const FALLBACK_ROWS: seq<Row> := [
    TrainingRow(8000.0, 1500.0, 1000.0, 0.0, 2000.0, 1500.0, 8.0, 800.0),
    TrainingRow(9000.0, 2000.0, 0.0, 0.0, 1000.0, 3000.0, 8.0, 750.0),
    TrainingRow(7000.0, 500.0, 800.0, 500.0, 1000.0, 1000.0, 8.0, 600.0)
  ]

  /** `load_historical_data`: the training file, or the built-in rows when it
      is absent, with every row whose `safe_rent` does not coerce to a
      number dropped. A file without a `safe_rent` column raises KeyError. */
  function LoadHistoricalData(source: Option<Table>): (r: Result<Table, PyError>)
    ensures source.None? ==> r == Ok(Table(TRAINING_COLUMNS, FALLBACK_ROWS))
    ensures source.None? ==>
              r.Ok? && r.value.columns == TRAINING_COLUMNS && |r.value.rows| == 3
              && CellAt(r.value.rows[0], SAFE_RENT) == Num(800.0)
              && CellAt(r.value.rows[1], SAFE_RENT) == Num(750.0)
              && CellAt(r.value.rows[2], SAFE_RENT) == Num(600.0)
    ensures source.Some? ==> (r.Err? <==> SAFE_RENT !in source.value.columns)
    ensures r.Err? ==> r.error == KeyError(SAFE_RENT)
    ensures r.Ok? ==> forall i :: 0 <= i < |r.value.rows| ==> NumericAt(SAFE_RENT, r.value.rows[i])
  {
    match source
    case None =>
      CoerceNumericIsIdentity(FALLBACK_ROWS, SAFE_RENT);
      Ok(Table(TRAINING_COLUMNS, CoerceColumn(FALLBACK_ROWS, SAFE_RENT)))
    case Some(t) =>
      if SAFE_RENT in t.columns then Ok(Table(t.columns, CoerceColumn(t.rows, SAFE_RENT)))
      else Err(KeyError(SAFE_RENT))
  }

  /** The loaded training rows are exactly the file's rows whose label
      coerces, in file order, each with only its label rewritten. */
  lemma HistoricalKeepsExactlyValidRows(t: Table)
    requires SAFE_RENT in t.columns
    ensures LoadHistoricalData(Some(t)).Ok?
    ensures var rows := LoadHistoricalData(Some(t)).value.rows;
            |rows| == |Survivors(t.rows, SAFE_RENT)|
            && forall k :: 0 <= k < |rows| ==>
                 rows[k] == SetNumeric(SAFE_RENT, Survivors(t.rows, SAFE_RENT)[k])
  {
    CoerceKeepsExactlyCoercible(t.rows, SAFE_RENT);
  }

  /** A row labelled "N/A" among valid rows is dropped and the others are all kept. */
  lemma NotANumberLabelDropped(t: Table, before: seq<Row>, bad: Row, after: seq<Row>)
    requires SAFE_RENT in t.columns && t.rows == before + [bad] + after
    requires forall i :: 0 <= i < |before| ==> NumericAt(SAFE_RENT, before[i])
    requires forall i :: 0 <= i < |after| ==> NumericAt(SAFE_RENT, after[i])
    requires CellAt(bad, SAFE_RENT) == Text("N/A")
    ensures LoadHistoricalData(Some(t)) == Ok(Table(t.columns, before + after))
  {
    Text.StripStripped("N/A");
    ParseNeedsDigit("N/A");
    CoerceDropsBadRow(before, bad, after, SAFE_RENT);
    CoerceNumericIsIdentity(before, SAFE_RENT);
    CoerceNumericIsIdentity(after, SAFE_RENT);
  }

  /** A regression fitted on the seven feature columns. */
  datatype LinearModel = LinearModel(coefficients: seq<real>, intercept: real)

  type FittedModel = m: LinearModel | |m.coefficients| == 7
    witness LinearModel([0.0, 0.0, 0.0, 0.0, 0.0, 0.0, 0.0], 0.0)

  /** Every cell outside the label column is a number: what
      `LinearRegression.fit` needs of the feature matrix `X` (NaN or text
      there raises ValueError). */
  predicate FeaturesNumeric(t: Table)
  {
    forall i, c :: 0 <= i < |t.rows| && c in t.columns && c != SAFE_RENT ==> CellAt(t.rows[i], c).Num?
  }

  /** `train_model`: least squares is an abstract `fit`; fitting on zero
      rows, or on a feature cell that is NaN or text, raises ValueError. */
  function TrainModel(t: Table, fit: seq<Row> -> FittedModel): (r: Result<FittedModel, PyError>)
    ensures r.Err? <==> t.rows == [] || !FeaturesNumeric(t)
    ensures r.Err? ==> r.error == ValueError
    ensures r.Ok? ==> r.value == fit(t.rows)
  {
    if t.rows == [] || !FeaturesNumeric(t) then Err(ValueError) else Ok(fit(t.rows))
  }

  /** Each built-in row has a number in every training column. */
  lemma TrainingRowNumeric(tuition: real, bank: real, partTime: real, internship: real,
                           scholarships: real, loans: real, months: real, safeRent: real)
    ensures var row := TrainingRow(tuition, bank, partTime, internship, scholarships, loans, months, safeRent);
            forall c :: c in TRAINING_COLUMNS ==> CellAt(row, c).Num?
  {
  }

  /** The built-in training set can be fitted. */
  lemma FallbackFeaturesNumeric()
    ensures FeaturesNumeric(Table(TRAINING_COLUMNS, FALLBACK_ROWS))
  {
    TrainingRowNumeric(8000.0, 1500.0, 1000.0, 0.0, 2000.0, 1500.0, 8.0, 800.0);
    TrainingRowNumeric(9000.0, 2000.0, 0.0, 0.0, 1000.0, 3000.0, 8.0, 750.0);
    TrainingRowNumeric(7000.0, 500.0, 800.0, 500.0, 1000.0, 1000.0, 8.0, 600.0);
  }

  function Dot(a: seq<real>, b: seq<real>): real
    requires |a| == |b|
  {
    if a == [] then 0.0 else a[0] * b[0] + Dot(a[1..], b[1..])
  }

  /** `model.predict(features)[0]`. */
  function Predict(m: FittedModel, v: seq<real>): real
    requires |v| == 7
  {
    m.intercept + Dot(m.coefficients, v)
  }

  /** A user profile: the answers keyed by feature name (a Python dict). */
  type Profile = map<string, real>

  /** The feature vector of `predict_safe_rent`: each field read from the
      profile, a missing one taken as 0, except `months`, taken as 8. */
  function FeatureVector(p: Profile): (v: seq<real>)
    ensures |v| == 7
    ensures forall i :: 0 <= i < 7 ==> (FEATURES[i] in p ==> v[i] == p[FEATURES[i]])
    ensures forall i :: 0 <= i < 6 ==> (FEATURES[i] !in p ==> v[i] == 0.0)
    ensures "months" !in p ==> v[6] == 8.0
  {
    [Get(p, "tuition", 0.0), Get(p, "bank_balance", 0.0), Get(p, "part_time_income", 0.0),
     Get(p, "internship_income", 0.0), Get(p, "scholarships", 0.0), Get(p, "loans", 0.0),
     Get(p, "months", 8.0)]
  }

  /** A profile dictionary literal with the seven features, in feature order. */
  function ProfileOf(v: seq<real>): (p: Profile)
    requires |v| == 7
    ensures forall i :: 0 <= i < 7 ==> FEATURES[i] in p
  {
    map["tuition" := v[0], "bank_balance" := v[1], "part_time_income" := v[2],
        "internship_income" := v[3], "scholarships" := v[4], "loans" := v[5],
        "months" := v[6]]
  }

  lemma FeaturesDistinct()
    ensures forall i, j :: 0 <= i < j < 7 ==> FEATURES[i] != FEATURES[j]
  {
    forall i, j | 0 <= i < j < 7 ensures FEATURES[i] != FEATURES[j] {
      if |FEATURES[i]| == |FEATURES[j]| {
        assert FEATURES[i][0] != FEATURES[j][0];
      }
    }
  }

  /** The `i`-th feature holds the `i`-th value. */
  lemma ProfileOfFields(v: seq<real>, i: nat)
    requires |v| == 7 && i < 7
    ensures FEATURES[i] in ProfileOf(v) && ProfileOf(v)[FEATURES[i]] == v[i]
  {
    FeaturesDistinct();
  }

  /** The profile of seven values, read back by feature name. */
  lemma ProfileOfNamed(tuition: real, bank: real, partTime: real, internship: real,
                       scholarships: real, loans: real, months: real)
    ensures var p := ProfileOf([tuition, bank, partTime, internship, scholarships, loans, months]);
            p["tuition"] == tuition && p["bank_balance"] == bank
            && p["part_time_income"] == partTime && p["internship_income"] == internship
            && p["scholarships"] == scholarships && p["loans"] == loans && p["months"] == months
  {
    var v := [tuition, bank, partTime, internship, scholarships, loans, months];
    ProfileOfFields(v, 0);
    ProfileOfFields(v, 1);
    ProfileOfFields(v, 2);
    ProfileOfFields(v, 3);
    ProfileOfFields(v, 4);
    ProfileOfFields(v, 5);
    ProfileOfFields(v, 6);
  }

  /** Python's `dict.get(key, default)`. */
  function Get(p: Profile, key: string, default: real): real
  {
    if key in p then p[key] else default
  }

  function Max(a: real, b: real): real { if a >= b then a else b }

  /** `predict_safe_rent`: the prediction clamped at zero and rounded to
      cents. Never negative, a whole number of cents, within half a cent of
      the clamped prediction, and zero whenever the prediction is not positive. */
  function PredictSafeRent(m: FittedModel, p: Profile): (r: real)
    ensures r >= 0.0
    ensures (r * 100.0).Floor as real == r * 100.0
    ensures -0.005 <= r - Max(Predict(m, FeatureVector(p)), 0.0) <= 0.005
    ensures Predict(m, FeatureVector(p)) <= 0.0 ==> r == 0.0
  {
    var clamped := Max(Predict(m, FeatureVector(p)), 0.0);
    RoundCentsWhole(0);
    RoundCents(clamped)
  }

  /** `load_sublets`: the listings file with every row whose `monthly_rent`
      does not coerce to a number dropped; an absent file gives an empty
      table with columns address and monthly_rent; a file without a
      `monthly_rent` column raises KeyError. */
  function LoadSublets(source: Option<Table>): (r: Result<Table, PyError>)
    ensures source.None? ==> r == Ok(Table(["address", MONTHLY_RENT], []))
    ensures source.Some? ==> (r.Err? <==> MONTHLY_RENT !in source.value.columns)
    ensures r.Err? ==> r.error == KeyError(MONTHLY_RENT)
    ensures r.Ok? ==> forall i :: 0 <= i < |r.value.rows| ==> NumericAt(MONTHLY_RENT, r.value.rows[i])
    ensures source.Some? && r.Ok? ==>
              var kept := Survivors(source.value.rows, MONTHLY_RENT);
              r.value.columns == source.value.columns && |r.value.rows| == |kept|
              && forall k :: 0 <= k < |kept| ==> r.value.rows[k] == SetNumeric(MONTHLY_RENT, kept[k])
  {
    match source
    case None => Ok(Table(["address", MONTHLY_RENT], []))
    case Some(t) =>
      if MONTHLY_RENT in t.columns then
        CoerceKeepsExactlyCoercible(t.rows, MONTHLY_RENT);
        Ok(Table(t.columns, CoerceColumn(t.rows, MONTHLY_RENT)))
      else Err(KeyError(MONTHLY_RENT))
  }

  /** The listing's rent can be compared with a number: a number or NaN
      (comparing text with a number raises in pandas). */
  predicate ComparableRent(r: Row) { !CellAt(r, MONTHLY_RENT).Text? }

  /** The boolean mask `df['monthly_rent'] <= safe_rent` (NaN compares false). */
  predicate RentAtMost(bound: real, r: Row)
  {
    CellAt(r, MONTHLY_RENT).Num? && CellAt(r, MONTHLY_RENT).x <= bound
  }

  /** `recommend_apartments`: exactly the listings whose rent is at most the
      safe rent, each as often as in the input, in input order. */
  function RecommendApartments(safeRent: real, t: Table): (r: Table)
    requires forall i :: 0 <= i < |t.rows| ==> ComparableRent(t.rows[i])
    ensures r.columns == t.columns
    ensures forall i :: 0 <= i < |r.rows| ==> RentAtMost(safeRent, r.rows[i])
    ensures forall row :: multiset(r.rows)[row] ==
              if RentAtMost(safeRent, row) then multiset(t.rows)[row] else 0
    ensures IsSubsequence(r.rows, t.rows)
  {
    var keep := row => RentAtMost(safeRent, row);
    FilterMultiset(t.rows, keep);
    FilterIsSubsequence(t.rows, keep);
    Table(t.columns, Filter(t.rows, keep))
  }
}
