/** The command-line side of `main.py`: the lazily filled global model and
    listing cache, the default-on-blank answer reader, and the rules of the
    recommendation report printed by the interactive calculator. */
module MainCli {
  import opened Wrappers
  import opened Seqs
  import opened Text
  import opened Numerals
  import opened Tables
  import opened AffordabilityModel

  // ---------------------------------------------------------------------
  // The global cache: `_model`, `_sublets_df` and `initialize_system`
  // ---------------------------------------------------------------------

  /** `train_model(load_historical_data())`: either call may raise. */
  function Trained(training: Option<Table>, fit: seq<Row> -> FittedModel): Result<FittedModel, PyError>
  {
    match LoadHistoricalData(training)
    case Err(e) => Err(e)
    case Ok(t) => TrainModel(t, fit)
  }

  /** What a complete `initialize_system` returns: the trained model and the
      loaded listings, or the first exception raised on the way. */
  function Initialized(training: Option<Table>, listings: Option<Table>,
                       fit: seq<Row> -> FittedModel): (r: Result<(FittedModel, Table), PyError>)
    ensures r.Ok? <==> Trained(training, fit).Ok? && LoadSublets(listings).Ok?
    ensures r.Ok? ==> r.value.0 == Trained(training, fit).value && r.value.1 == LoadSublets(listings).value
    ensures Trained(training, fit).Err? ==> r == Err(Trained(training, fit).error)
    ensures Trained(training, fit).Ok? && LoadSublets(listings).Err? ==> r == Err(LoadSublets(listings).error)
  {
    match Trained(training, fit)
    case Err(e) => Err(e)
    case Ok(m) =>
      match LoadSublets(listings)
      case Err(e) => Err(e)
      case Ok(s) => Ok((m, s))
  }

  /** Without a training file the built-in rows are used, and training on
      them never fails: the model half of the start-up always succeeds. */
  lemma FallbackTrainingSucceeds(fit: seq<Row> -> FittedModel)
    ensures Trained(None, fit) == Ok(fit(FALLBACK_ROWS))
  {
    FallbackFeaturesNumeric();
  }

  /** Without either file the system starts with the built-in model and an
      empty listing table. */
  lemma StartWithoutFiles(fit: seq<Row> -> FittedModel)
    ensures Initialized(None, None, fit) == Ok((fit(FALLBACK_ROWS), Table(["address", MONTHLY_RENT], [])))
  {
    FallbackTrainingSucceeds(fit);
  }

  /** The module-level globals `_model` and `_sublets_df` (both start as
      `None`) together with the sources `initialize_system` reads. */
  class HousingSystem {
    const training: Option<Table>
    const listings: Option<Table>
    const fit: seq<Row> -> FittedModel
    var model: Option<FittedModel>
    var sublets: Option<Table>
    /** How many times `initialize_system` has run. */
    ghost var initializations: nat

    /** A filled cache field holds exactly what initialisation computes. */
    ghost predicate Valid()
      reads this
    {
      (model.Some? ==> Trained(training, fit) == Ok(model.value))
      && (sublets.Some? ==> LoadSublets(listings) == Ok(sublets.value))
    }

    constructor(training: Option<Table>, listings: Option<Table>, fit: seq<Row> -> FittedModel)
      ensures this.training == training && this.listings == listings && this.fit == fit
      ensures model.None? && sublets.None? && initializations == 0
      ensures Valid()
    {
      this.training := training;
      this.listings := listings;
      this.fit := fit;
      model := None;
      sublets := None;
      initializations := 0;
    }

    /** `initialize_system`: trains and stores the model, then loads and
        stores the listings. An exception leaves the fields not yet
        assigned as they were: a failing training leaves both, a failing
        listing load leaves only the listings. */
    method InitializeSystem() returns (r: Result<(FittedModel, Table), PyError>)
      requires Valid()
      modifies this
      ensures Valid()
      ensures r == Initialized(training, listings, fit)
      ensures initializations == old(initializations) + 1
      ensures Trained(training, fit).Ok? ==> model == Some(Trained(training, fit).value)
      ensures Trained(training, fit).Err? ==> model == old(model)
      ensures r.Ok? ==> sublets == Some(r.value.1)
      ensures r.Err? ==> sublets == old(sublets)
    {
      initializations := initializations + 1;
      var trained := Trained(training, fit);
      if trained.Err? {
        return Err(trained.error);
      }
      model := Some(trained.value);
      var loaded := LoadSublets(listings);
      if loaded.Err? {
        return Err(loaded.error);
      }
      sublets := Some(loaded.value);
      r := Ok((trained.value, loaded.value));
    }

    /** `get_model`: the cached model, initialising the whole system first
        only when no model is cached. */
    method GetModel() returns (r: Result<FittedModel, PyError>)
      requires Valid()
      modifies this
      ensures Valid()
      ensures old(model).Some? ==>
                r == Ok(old(model).value) && model == old(model) && sublets == old(sublets)
                && initializations == old(initializations)
      ensures old(model).None? ==> initializations == old(initializations) + 1
      ensures old(model).None? ==>
                (Trained(training, fit).Ok? ==> model == Some(Trained(training, fit).value))
                && (Trained(training, fit).Err? ==> model == old(model))
                && (Initialized(training, listings, fit).Ok? ==>
                      sublets == Some(Initialized(training, listings, fit).value.1))
                && (Initialized(training, listings, fit).Err? ==> sublets == old(sublets))
      ensures old(model).None? ==>
                (r.Ok? <==> Initialized(training, listings, fit).Ok?)
                && (r.Err? ==> r.error == Initialized(training, listings, fit).error)
      ensures r.Ok? ==> Trained(training, fit) == Ok(r.value) && model == Some(r.value)
    {
      if model.Some? {
        return Ok(model.value);
      }
      var init := InitializeSystem();
      if init.Err? {
        return Err(init.error);
      }
      r := Ok(model.value);
    }

    /** `get_sublets`: the cached listings, initialising the whole system
        first only when no listings are cached. */
    method GetSublets() returns (r: Result<Table, PyError>)
      requires Valid()
      modifies this
      ensures Valid()
      ensures old(sublets).Some? ==>
                r == Ok(old(sublets).value) && model == old(model) && sublets == old(sublets)
                && initializations == old(initializations)
      ensures old(sublets).None? ==> initializations == old(initializations) + 1
      ensures old(sublets).None? ==>
                (Trained(training, fit).Ok? ==> model == Some(Trained(training, fit).value))
                && (Trained(training, fit).Err? ==> model == old(model))
                && (Initialized(training, listings, fit).Ok? ==>
                      sublets == Some(Initialized(training, listings, fit).value.1))
                && (Initialized(training, listings, fit).Err? ==> sublets == old(sublets))
      ensures old(sublets).None? ==>
                (r.Ok? <==> Initialized(training, listings, fit).Ok?)
                && (r.Err? ==> r.error == Initialized(training, listings, fit).error)
      ensures r.Ok? ==> LoadSublets(listings) == Ok(r.value) && sublets == Some(r.value)
    {
      if sublets.Some? {
        return Ok(sublets.value);
      }
      var init := InitializeSystem();
      if init.Err? {
        return Err(init.error);
      }
      r := Ok(sublets.value);
    }
  }

  /** The calls of `run_cli_mode` on a fresh start: `get_model()` and later
      `get_sublets()`. The first call initialises the system once; when
      that succeeds the second is served from the cache, and when it raises
      the second call is never reached. */
  method ModelThenListings(sys: HousingSystem) returns (m: Result<FittedModel, PyError>,
                                                        s: Result<Table, PyError>)
    requires sys.Valid() && sys.model.None? && sys.sublets.None?
    modifies sys
    ensures Initialized(sys.training, sys.listings, sys.fit).Ok? ==>
              sys.initializations == old(sys.initializations) + 1
              && m == Ok(Initialized(sys.training, sys.listings, sys.fit).value.0)
              && s == Ok(Initialized(sys.training, sys.listings, sys.fit).value.1)
    ensures Initialized(sys.training, sys.listings, sys.fit).Err? ==>
              sys.initializations == old(sys.initializations) + 1
              && m == Err(Initialized(sys.training, sys.listings, sys.fit).error)
              && s == Err(Initialized(sys.training, sys.listings, sys.fit).error)
  {
    m := sys.GetModel();
    if m.Err? {
      s := Err(m.error);
      return;
    }
    s := sys.GetSublets();
  }

  // ---------------------------------------------------------------------
  // Reading the answers: `get_input` and the profile of `run_cli_mode`
  // ---------------------------------------------------------------------

  /** `get_input`: the stripped answer read as a number; a blank answer or
      one `float()` rejects gives the default. */
  function GetInput(raw: string, default: real): (r: real)
    ensures AllSpace(raw) ==> r == default
    ensures PyFloat(Strip(raw)).None? ==> r == default
    ensures PyFloat(Strip(raw)).Some? ==> r == PyFloat(Strip(raw)).value
  {
    StripEmpty(raw);
    var value := Strip(raw);
    if value == [] then default
    else match PyFloat(value)
      case Some(x) => x
      case None => default
  }

  /** A plain digit answer is read as its value. */
  lemma DigitAnswerRead(raw: string, default: real)
    requires raw != [] && AllDigits(raw)
    ensures GetInput(raw, default) == DigitsValue(raw) as real
  {
    StripStripped(raw);
    StripStripped(Strip(raw));
    DigitsParse(raw);
  }

  /** The defaults offered for the seven questions, in feature order. */
  const CLI_DEFAULTS: seq<real> := [8000.0, 1500.0, 1000.0, 0.0, 2000.0, 1500.0, 8.0]

  /** The `user_input` dictionary built from the seven raw answers. */
  function CliProfile(raw: seq<string>): (p: Profile)
    requires |raw| == 7
    ensures HasAllFeatures(p)
  {
    ProfileOf(seq(7, i requires 0 <= i < 7 => GetInput(raw[i], CLI_DEFAULTS[i])))
  }

  /** The `i`-th feature holds the `i`-th answer, read with the `i`-th default. */
  lemma CliProfileReadsAnswers(raw: seq<string>, i: nat)
    requires |raw| == 7 && i < 7
    ensures FEATURES[i] in CliProfile(raw)
    ensures CliProfile(raw)[FEATURES[i]] == GetInput(raw[i], CLI_DEFAULTS[i])
  {
    ProfileOfFields(seq(7, i requires 0 <= i < 7 => GetInput(raw[i], CLI_DEFAULTS[i])), i);
  }

  /** Pressing Enter at every question gives exactly the features of the
      first built-in training row. */
  lemma BlankAnswersGiveFirstTrainingRow(raw: seq<string>)
    requires |raw| == 7 && forall i :: 0 <= i < 7 ==> AllSpace(raw[i])
    ensures FeatureVector(CliProfile(raw)) == CLI_DEFAULTS
    ensures forall i :: 0 <= i < 7 ==> CellAt(FALLBACK_ROWS[0], FEATURES[i]) == Num(CLI_DEFAULTS[i])
  {
    var p := CliProfile(raw);
    var v := FeatureVector(p);
    forall i | 0 <= i < 7 ensures v[i] == CLI_DEFAULTS[i] {
      CliProfileReadsAnswers(raw, i);
    }
    FirstTrainingRowFeatures();
  }

  lemma FirstTrainingRowFeatures()
    ensures forall i :: 0 <= i < 7 ==> CellAt(FALLBACK_ROWS[0], FEATURES[i]) == Num(CLI_DEFAULTS[i])
  {
    var row := FALLBACK_ROWS[0];
    assert row == TrainingRow(8000.0, 1500.0, 1000.0, 0.0, 2000.0, 1500.0, 8.0, 800.0);
  }

  /** Every feature is answered. */
  predicate HasAllFeatures(p: Profile)
  {
    "tuition" in p && "bank_balance" in p && "part_time_income" in p && "internship_income" in p
    && "scholarships" in p && "loans" in p && "months" in p
  }

  /** The financial summary printed before the recommendation. */
  datatype Summary = Summary(income: real, support: real, bankBalance: real,
                             tuition: real, safeRent: real, months: int)

  /** Monthly income is part-time plus internship income, support is
      scholarships plus loans, and the months are shown truncated. */
  function FinancialSummary(p: Profile, safeRent: real): (s: Summary)
    requires HasAllFeatures(p)
    ensures s.income == p["part_time_income"] + p["internship_income"]
    ensures s.support == p["scholarships"] + p["loans"]
    ensures p["months"] >= 0.0 ==> s.months as real <= p["months"] < s.months as real + 1.0
    ensures p["months"] < 0.0 ==> s.months as real - 1.0 < p["months"] <= s.months as real <= 0.0
    ensures s.bankBalance == p["bank_balance"] && s.tuition == p["tuition"] && s.safeRent == safeRent
  {
    Summary(p["part_time_income"] + p["internship_income"], p["scholarships"] + p["loans"],
            p["bank_balance"], p["tuition"], safeRent, TruncToInt(p["months"]))
  }

  /** With every answer blank the summary shows an income of 1000, support
      of 3500 and 8 months. */
  lemma BlankAnswersSummary(raw: seq<string>, safeRent: real)
    requires |raw| == 7 && forall i :: 0 <= i < 7 ==> AllSpace(raw[i])
    ensures var s := FinancialSummary(CliProfile(raw), safeRent);
            s.income == 1000.0 && s.support == 3500.0 && s.months == 8
  {
    var p := CliProfile(raw);
    CliProfileReadsAnswers(raw, 2);
    CliProfileReadsAnswers(raw, 3);
    CliProfileReadsAnswers(raw, 4);
    CliProfileReadsAnswers(raw, 5);
    CliProfileReadsAnswers(raw, 6);
    assert p["months"] == 8.0;
  }

  // ---------------------------------------------------------------------
  // The recommendation report
  // ---------------------------------------------------------------------

  /** Every listing carries a numeric rent, as `load_sublets` guarantees. */
  predicate AllPriced(rows: seq<Row>)
  {
    forall i :: 0 <= i < |rows| ==> NumericAt(MONTHLY_RENT, rows[i])
  }

  function Rent(r: Row): real
    requires NumericAt(MONTHLY_RENT, r)
  {
    r[MONTHLY_RENT].x
  }

  predicate SortedByRent(rows: seq<Row>)
    requires AllPriced(rows)
  {
    forall i, j :: 0 <= i < j < |rows| ==> Rent(rows[i]) <= Rent(rows[j])
  }

  /** Every listing of `rows` costs at least `lo`. */
  predicate RentsFrom(lo: real, rows: seq<Row>)
    requires AllPriced(rows)
  {
    forall i :: 0 <= i < |rows| ==> lo <= Rent(rows[i])
  }

  /** One step of insertion: `x` placed before the first listing that costs
      at least as much. */
  function Insert(x: Row, s: seq<Row>): (r: seq<Row>)
    requires NumericAt(MONTHLY_RENT, x) && AllPriced(s) && SortedByRent(s)
    ensures AllPriced(r) && SortedByRent(r)
    ensures multiset(r) == multiset(s) + multiset{x}
    ensures forall lo :: lo <= Rent(x) && RentsFrom(lo, s) ==> RentsFrom(lo, r)
  {
    if s == [] then [x]
    else if Rent(x) <= Rent(s[0]) then
      SortedHead(s);
      PrependSorted(x, s);
      [x] + s
    else
      SortedHead(s);
      var rest := Insert(x, s[1..]);
      PrependSorted(s[0], rest);
      assert s == [s[0]] + s[1..];
      [s[0]] + rest
  }

  /** The head of a sorted list is its cheapest listing, and its tail is sorted. */
  lemma SortedHead(s: seq<Row>)
    requires AllPriced(s) && SortedByRent(s) && s != []
    ensures AllPriced(s[1..]) && SortedByRent(s[1..])
    ensures RentsFrom(Rent(s[0]), s) && RentsFrom(Rent(s[0]), s[1..])
  {
  }

  /** A listing that costs no more than a sorted list can head it. */
  lemma PrependSorted(h: Row, t: seq<Row>)
    requires NumericAt(MONTHLY_RENT, h) && AllPriced(t) && SortedByRent(t) && RentsFrom(Rent(h), t)
    ensures AllPriced([h] + t) && SortedByRent([h] + t)
    ensures forall lo :: lo <= Rent(h) && RentsFrom(lo, t) ==> RentsFrom(lo, [h] + t)
  {
    var r := [h] + t;
    forall i, j | 0 <= i < j < |r| ensures Rent(r[i]) <= Rent(r[j]) {
      assert r[j] == t[j - 1];
      if i > 0 {
        assert r[i] == t[i - 1];
      }
    }
  }

  /** `sort_values('monthly_rent')`: the listings in ascending order of
      rent, each as often as before. */
  function SortByRent(rows: seq<Row>): (r: seq<Row>)
    requires AllPriced(rows)
    ensures AllPriced(r) && SortedByRent(r)
    ensures multiset(r) == multiset(rows)
  {
    if rows == [] then []
    else
      assert rows == [rows[0]] + rows[1..];
      Insert(rows[0], SortByRent(rows[1..]))
  }

  /** Sorting keeps the number of listings. */
  lemma SortKeepsLength(rows: seq<Row>)
    requires AllPriced(rows)
    ensures |SortByRent(rows)| == |rows|
  {
    assert |multiset(SortByRent(rows))| == |multiset(rows)|;
  }

  /** `row['address'][:38] if len(str(row['address'])) > 38 else row['address']`:
      a text address is cut to its first 38 characters; anything else is shown as is. */
  function Truncate38(c: Cell): (d: Cell)
    ensures !c.Text? ==> d == c
    ensures c.Text? ==> d.Text? && |d.s| <= 38 && |d.s| <= |c.s| && d.s == c.s[..|d.s|]
    ensures c.Text? && |c.s| <= 38 ==> d == c
    ensures c.Text? && |c.s| > 38 ==> |d.s| == 38
  {
    if c.Text? && |c.s| > 38 then Text(c.s[..38]) else c
  }

  /** One printed listing: the (cut) address, the rent, and the savings line
      when there is one. */
  datatype Entry = Entry(address: Cell, rent: real, savings: Option<real>)

  /** The report body: the sorted listings, or, when nothing is affordable,
      the range of all listings, or the note that there are none at all. */
  datatype Listing = Listed(entries: seq<Entry>) | NoneUnder(lo: real, hi: real) | NoneAvailable

  /** "Found N apartments under $S/month" and the body under it. */
  datatype Report = Report(found: nat, safeRent: real, body: Listing)

  /** The entry printed for a listing: the savings `safe_rent - rent` are
      shown only when strictly positive. */
  function EntryFor(safeRent: real, row: Row): (e: Entry)
    requires NumericAt(MONTHLY_RENT, row)
    ensures e.rent == Rent(row) && e.address == Truncate38(CellAt(row, "address"))
    ensures e.savings.Some? <==> Rent(row) < safeRent
    ensures e.savings.Some? ==> e.savings.value > 0.0 && e.savings.value + e.rent == safeRent
  {
    var savings := safeRent - Rent(row);
    Entry(Truncate38(CellAt(row, "address")), Rent(row), if savings > 0.0 then Some(savings) else None)
  }

  /** The cheapest listing's rent (`df['monthly_rent'].min()`). */
  function MinRent(rows: seq<Row>): (m: real)
    requires rows != [] && AllPriced(rows)
    ensures RentsFrom(m, rows)
    ensures exists i :: 0 <= i < |rows| && Rent(rows[i]) == m
  {
    if |rows| == 1 then rows[0][MONTHLY_RENT].x
    else
      var m := MinRent(rows[1..]);
      var k :| 1 <= k + 1 < |rows| && Rent(rows[1..][k]) == m;
      assert Rent(rows[k + 1]) == m;
      if Rent(rows[0]) <= m then Rent(rows[0]) else m
  }

  /** The dearest listing's rent (`df['monthly_rent'].max()`). */
  function MaxRent(rows: seq<Row>): (m: real)
    requires rows != [] && AllPriced(rows)
    ensures forall i :: 0 <= i < |rows| ==> Rent(rows[i]) <= m
    ensures exists i :: 0 <= i < |rows| && Rent(rows[i]) == m
  {
    if |rows| == 1 then rows[0][MONTHLY_RENT].x
    else
      var m := MaxRent(rows[1..]);
      var k :| 1 <= k + 1 < |rows| && Rent(rows[1..][k]) == m;
      assert Rent(rows[k + 1]) == m;
      if Rent(rows[0]) >= m then Rent(rows[0]) else m
  }

  /** Priced listings can be compared with the safe rent. */
  lemma PricedComparable(rows: seq<Row>)
    requires AllPriced(rows)
    ensures forall i :: 0 <= i < |rows| ==> ComparableRent(rows[i])
  {
    forall i | 0 <= i < |rows| ensures ComparableRent(rows[i]) {
      assert CellAt(rows[i], MONTHLY_RENT) == rows[i][MONTHLY_RENT];
    }
  }

  /** The recommended listings: exactly the listings priced at most the
      safe rent, each as often as in the table, in table order. */
  function Recommended(safeRent: real, sublets: Table): (r: seq<Row>)
    requires AllPriced(sublets.rows)
    ensures AllPriced(r)
    ensures forall i :: 0 <= i < |r| ==> Rent(r[i]) <= safeRent
    ensures forall i :: 0 <= i < |sublets.rows| ==>
              (sublets.rows[i] in r <==> Rent(sublets.rows[i]) <= safeRent)
    ensures forall i :: 0 <= i < |sublets.rows| && Rent(sublets.rows[i]) <= safeRent ==>
              multiset(r)[sublets.rows[i]] == multiset(sublets.rows)[sublets.rows[i]]
    ensures IsSubsequence(r, sublets.rows)
  {
    PricedComparable(sublets.rows);
    var recs := RecommendApartments(safeRent, sublets).rows;
    assert forall i :: 0 <= i < |recs| ==> RentAtMost(safeRent, recs[i]);
    assert forall i :: 0 <= i < |recs| ==> CellAt(recs[i], MONTHLY_RENT).Num?;
    forall i | 0 <= i < |sublets.rows|
      ensures RentAtMost(safeRent, sublets.rows[i]) <==> Rent(sublets.rows[i]) <= safeRent
    {
      assert CellAt(sublets.rows[i], MONTHLY_RENT) == sublets.rows[i][MONTHLY_RENT];
    }
    forall i | 0 <= i < |sublets.rows| ensures sublets.rows[i] in recs <==> Rent(sublets.rows[i]) <= safeRent {
      assert multiset(sublets.rows)[sublets.rows[i]] > 0;
      assert sublets.rows[i] in recs <==> multiset(recs)[sublets.rows[i]] > 0;
    }
    recs
  }

  /** The report `run_cli_mode` prints for a safe rent and the listings. */
  function ReportFor(safeRent: real, sublets: Table): Report
    requires AllPriced(sublets.rows)
  {
    var recs := Recommended(safeRent, sublets);
    var body :=
      if |recs| > 0 then
        var sorted := SortByRent(recs);
        Listed(seq(|sorted|, k requires 0 <= k < |sorted| => EntryFor(safeRent, sorted[k])))
      else if |sublets.rows| > 0 then NoneUnder(MinRent(sublets.rows), MaxRent(sublets.rows))
      else NoneAvailable;
    Report(|recs|, safeRent, body)
  }

  /** The report loop: the affordable listings sorted by rent, one entry
      per row with its savings; otherwise the range or the empty note. */
  method BuildReport(safeRent: real, sublets: Table) returns (report: Report)
    requires AllPriced(sublets.rows)
    ensures report == ReportFor(safeRent, sublets)
  {
    var recommendations := Recommended(safeRent, sublets);
    if |recommendations| > 0 {
      var entries := ListEntries(safeRent, SortByRent(recommendations));
      ListedReport(safeRent, sublets, entries);
      report := Report(|recommendations|, safeRent, Listed(entries));
    } else if |sublets.rows| > 0 {
      report := Report(0, safeRent, NoneUnder(MinRent(sublets.rows), MaxRent(sublets.rows)));
    } else {
      report := Report(0, safeRent, NoneAvailable);
    }
  }

  /** The loop over the sorted listings, one entry per row in order. */
  method ListEntries(safeRent: real, sorted: seq<Row>) returns (entries: seq<Entry>)
    requires AllPriced(sorted)
    ensures |entries| == |sorted|
    ensures forall k :: 0 <= k < |sorted| ==> entries[k] == EntryFor(safeRent, sorted[k])
  {
    entries := [];
    var i := 0;
    while i < |sorted|
      invariant 0 <= i <= |sorted|
      invariant |entries| == i
      invariant forall k :: 0 <= k < i ==> entries[k] == EntryFor(safeRent, sorted[k])
    {
      var row := sorted[i];
      var address := Truncate38(CellAt(row, "address"));
      var rent := Rent(row);
      var savings := safeRent - rent;
      var line := if savings > 0.0 then Some(savings) else None;
      entries := entries + [Entry(address, rent, line)];
      i := i + 1;
    }
  }

  lemma ListedReport(safeRent: real, sublets: Table, entries: seq<Entry>)
    requires AllPriced(sublets.rows)
    requires var sorted := SortByRent(Recommended(safeRent, sublets));
             |Recommended(safeRent, sublets)| > 0 && |entries| == |sorted|
             && forall k :: 0 <= k < |sorted| ==> entries[k] == EntryFor(safeRent, sorted[k])
    ensures ReportFor(safeRent, sublets) == Report(|Recommended(safeRent, sublets)|, safeRent, Listed(entries))
  {
    var sorted := SortByRent(Recommended(safeRent, sublets));
    var listed := seq(|sorted|, k requires 0 <= k < |sorted| => EntryFor(safeRent, sorted[k]));
    assert listed == entries;
  }

  /** Sorting keeps every listing, so it keeps an upper bound on the rents. */
  lemma SortKeepsBound(rows: seq<Row>, bound: real)
    requires AllPriced(rows) && forall i :: 0 <= i < |rows| ==> Rent(rows[i]) <= bound
    ensures forall i :: 0 <= i < |SortByRent(rows)| ==> Rent(SortByRent(rows)[i]) <= bound
  {
    var sorted := SortByRent(rows);
    forall i | 0 <= i < |sorted| ensures Rent(sorted[i]) <= bound {
      assert sorted[i] in multiset(rows);
      var k :| 0 <= k < |rows| && rows[k] == sorted[i];
    }
  }

  /** Listed entries are the affordable listings, as many as were found,
      ascending by rent, none above the safe rent, and with a savings line
      exactly when the rent is below it. */
  lemma ListedEntriesSortedAndAffordable(safeRent: real, sublets: Table)
    requires AllPriced(sublets.rows)
    ensures var r := ReportFor(safeRent, sublets);
            r.body.Listed? <==> r.found > 0
    ensures var r := ReportFor(safeRent, sublets);
            r.body.Listed? ==>
              var e := r.body.entries;
              |e| == r.found
              && (forall i, j :: 0 <= i < j < |e| ==> e[i].rent <= e[j].rent)
              && (forall i :: 0 <= i < |e| ==> e[i].rent <= safeRent)
              && (forall i :: 0 <= i < |e| ==> (e[i].savings.Some? <==> e[i].rent < safeRent))
  {
    var recs := Recommended(safeRent, sublets);
    if |recs| > 0 {
      var sorted := SortByRent(recs);
      SortKeepsLength(recs);
      SortKeepsBound(recs, safeRent);
      ListedEntries(safeRent, sublets);
      var e := ReportFor(safeRent, sublets).body.entries;
      forall i, j | 0 <= i < j < |e| ensures e[i].rent <= e[j].rent {
        assert e[i].rent == Rent(sorted[i]) && e[j].rent == Rent(sorted[j]);
      }
      forall i | 0 <= i < |e|
        ensures e[i].rent <= safeRent && (e[i].savings.Some? <==> e[i].rent < safeRent)
      {
        assert e[i] == EntryFor(safeRent, sorted[i]);
      }
    }
  }

  /** The listed entries are those of the sorted recommendations, in order. */
  lemma ListedEntries(safeRent: real, sublets: Table)
    requires AllPriced(sublets.rows) && |Recommended(safeRent, sublets)| > 0
    ensures var sorted := SortByRent(Recommended(safeRent, sublets));
            var r := ReportFor(safeRent, sublets);
            r.body.Listed? && |r.body.entries| == |sorted|
            && forall i :: 0 <= i < |sorted| ==> r.body.entries[i] == EntryFor(safeRent, sorted[i])
  {
  }

  /** "No apartments under" is printed exactly when nothing is affordable
      but listings exist, and then every listing costs more than the safe
      rent and the printed range spans all listings. */
  lemma NoneUnderMeansAllTooDear(safeRent: real, sublets: Table)
    requires AllPriced(sublets.rows)
    ensures var r := ReportFor(safeRent, sublets);
            r.body.NoneUnder? <==> r.found == 0 && |sublets.rows| > 0
    ensures var r := ReportFor(safeRent, sublets);
            r.body.NoneUnder? ==>
              safeRent < r.body.lo <= r.body.hi
              && forall i :: 0 <= i < |sublets.rows| ==>
                   r.body.lo <= Rent(sublets.rows[i]) <= r.body.hi
  {
    var recs := Recommended(safeRent, sublets);
    if |recs| == 0 && |sublets.rows| > 0 {
      var keep := row => RentAtMost(safeRent, row);
      PricedComparable(sublets.rows);
      forall i | 0 <= i < |sublets.rows| ensures safeRent < Rent(sublets.rows[i]) {
        FilterMembership(sublets.rows, keep, sublets.rows[i]);
        assert CellAt(sublets.rows[i], MONTHLY_RENT) == sublets.rows[i][MONTHLY_RENT];
      }
    }
  }

  /** "No apartments available" is printed exactly when there are no listings. */
  lemma NoneAvailableMeansNoListings(safeRent: real, sublets: Table)
    requires AllPriced(sublets.rows)
    ensures ReportFor(safeRent, sublets).body.NoneAvailable? <==> sublets.rows == []
  {
    var recs := Recommended(safeRent, sublets);
    if sublets.rows == [] {
      PricedComparable(sublets.rows);
      assert |recs| <= |sublets.rows|;
    }
  }

  // ---------------------------------------------------------------------
  // Choosing what to run: `main`
  // ---------------------------------------------------------------------

  /** The parsed command line (`vars(args)`). */
  datatype Args = Args(cli: bool, api: bool, port: int, host: string, dashboard: bool, full: bool)

  /** The default command line: no flag given. */
  const NO_FLAGS := Args(false, false, 5000, "127.0.0.1", false, false)

  datatype Mode = ShowHelp | RunCli | RunApi(host: string, port: int) | RunDashboard | RunFull | DoNothing

  /** `main` as written: help only when every parsed value is falsy, which
      counts the port and host, although they always carry defaults. */
  function DispatchAsWritten(a: Args): (m: Mode)
    ensures m.ShowHelp? ==> a.port == 0 && a.host == ""
  {
    if !(a.cli || a.api || a.port != 0 || a.host != "" || a.dashboard || a.full) then ShowHelp
    else if a.cli then RunCli
    else if a.api then RunApi(a.host, a.port)
    else if a.dashboard then RunDashboard
    else if a.full then RunFull
    else DoNothing
  }

  /** Run without flags, the program as written neither shows the help nor
      does anything else. */
  lemma NoFlagsDoesNothing()
    ensures DispatchAsWritten(NO_FLAGS) == DoNothing
  {
  }

  /** `main` as intended: help exactly when no mode flag is given; the
      first mode flag in the order cli, api, dashboard, full wins. */
  function Dispatch(a: Args): (m: Mode)
    ensures m.ShowHelp? <==> !(a.cli || a.api || a.dashboard || a.full)
    ensures !m.DoNothing?
  {
    if a.cli then RunCli
    else if a.api then RunApi(a.host, a.port)
    else if a.dashboard then RunDashboard
    else if a.full then RunFull
    else ShowHelp
  }

  /** Whenever a mode flag is given the two agree; they differ only on the
      command lines without one. */
  lemma DispatchAgreesOnModeFlags(a: Args)
    ensures (a.cli || a.api || a.dashboard || a.full) ==> Dispatch(a) == DispatchAsWritten(a)
    ensures !(a.cli || a.api || a.dashboard || a.full) ==>
              (Dispatch(a) == DispatchAsWritten(a) <==> a.port == 0 && a.host == "")
  {
  }
}
