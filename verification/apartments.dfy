/** The `load_apartments` loop shared, line for line, by `rag.py` and
    `fake_api.py`: read the listings file with `csv.DictReader`, convert each
    row's `monthly_rent` to a number in place and keep the row, skipping the
    rows whose conversion fails. Also the JSON response both APIs return. */
module Apartments {
  import opened Wrappers
  import opened Seqs
  import opened Tables

  /** The listings the loader returns for a source (`None`: no such file). */
  function Loaded(source: Option<seq<Row>>): (r: seq<Row>)
    ensures forall i :: 0 <= i < |r| ==> NumericAt(MONTHLY_RENT, r[i])
  {
    match source
    case None => []
    case Some(rows) => CoerceColumn(rows, MONTHLY_RENT)
  }

  /** `load_apartments` with the failed-conversion rows skipped, whatever
      exception the conversion raises (see "Findings" in README for the
      code as written). An absent file gives no listings; otherwise the
      listings are the rows whose rent converts, in file order, each with its
      rent replaced by the number. */
  method LoadApartments(source: Option<seq<Row>>) returns (apartments: seq<Row>)
    ensures source.None? ==> apartments == []
    ensures source.Some? ==> apartments == CoerceColumn(source.value, MONTHLY_RENT)
    ensures apartments == Loaded(source)
  {
    apartments := [];
    if source.None? {
      return;
    }
    var rows := source.value;
    var i := 0;
    while i < |rows|
      invariant 0 <= i <= |rows|
      invariant apartments == CoerceColumn(rows[..i], MONTHLY_RENT)
    {
      var row := rows[i];
      if MONTHLY_RENT in row {
        var rent := ToNumeric(row[MONTHLY_RENT]);
        if rent.Some? {
          row := row[MONTHLY_RENT := Num(rent.value)];
          apartments := apartments + [row];
        }
      }
      CoerceStep(rows, i, MONTHLY_RENT);
      i := i + 1;
    }
    assert rows[..i] == rows;
  }

  /** A row that `csv.DictReader` filled up with `None` because it was
      shorter than the header. */
  predicate ShortRow(r: Row) { MONTHLY_RENT in r && r[MONTHLY_RENT] == Missing }

  /** `load_apartments` as written: `float(None)` raises TypeError, which the
      `except (ValueError, KeyError)` clause does not catch, so one short
      row makes the whole load raise. */
  function LoadAsWritten(rows: seq<Row>): (r: Result<seq<Row>, PyError>)
    ensures r.Err? ==> r.error == TypeError
    ensures r.Ok? ==> |r.value| <= |rows|
  {
    if rows == [] then Ok([])
    else
      var row := rows[0];
      var first: Result<seq<Row>, PyError> :=
        if MONTHLY_RENT !in row then Ok([])                   // KeyError: skipped
        else if row[MONTHLY_RENT] == Missing then Err(TypeError)  // not caught
        else if ToNumeric(row[MONTHLY_RENT]).None? then Ok([])   // ValueError: skipped
        else Ok([row[MONTHLY_RENT := Num(ToNumeric(row[MONTHLY_RENT]).value)]]);
      match first
      case Err(e) => Err(e)
      case Ok(h) =>
        match LoadAsWritten(rows[1..])
        case Err(e) => Err(e)
        case Ok(t) => Ok(h + t)
  }

  /** The loop as written raises exactly when some row is short, and
      otherwise returns what the corrected loop returns. */
  lemma {:induction false} AsWrittenRaisesOnlyOnShortRows(rows: seq<Row>)
    ensures LoadAsWritten(rows).Err? <==> exists i :: 0 <= i < |rows| && ShortRow(rows[i])
    ensures LoadAsWritten(rows).Err? ==> LoadAsWritten(rows).error == TypeError
    ensures LoadAsWritten(rows).Ok? ==> LoadAsWritten(rows).value == CoerceColumn(rows, MONTHLY_RENT)
  {
    if rows != [] {
      AsWrittenRaisesOnlyOnShortRows(rows[1..]);
      if exists i :: 0 <= i < |rows[1..]| && ShortRow(rows[1..][i]) {
        var i :| 0 <= i < |rows[1..]| && ShortRow(rows[1..][i]);
        assert ShortRow(rows[i + 1]);
      }
      if exists i :: 0 <= i < |rows| && ShortRow(rows[i]) {
        var i :| 0 <= i < |rows| && ShortRow(rows[i]);
        if i > 0 {
          assert ShortRow(rows[1..][i - 1]);
        }
      }
    }
  }

  /** The discrepancy on a concrete file: header `address,monthly_rent,company`
      and the line `200 King St` give a row whose rent is `None`. The code as
      written raises; the corrected loop skips the row. */
  lemma ShortRowRaises()
    ensures var row := map["address" := Text("200 King St"), MONTHLY_RENT := Missing, "company" := Missing];
            LoadAsWritten([row]) == Err(TypeError)
            && Loaded(Some([row])) == []
  {
    var row := map["address" := Text("200 King St"), MONTHLY_RENT := Missing, "company" := Missing];
    assert !Coercible(MONTHLY_RENT, row);
  }

  /** The JSON body of `GET /api/affordable/<budget>`. */
  datatype Response = Response(budget: nat, count: nat, apartments: seq<Row>)
}
