/** Tabular data as the rent advisor holds it: a row maps column names to
    cells, and a table is a header plus rows (a pandas DataFrame, or the
    dictionaries produced by `csv.DictReader`). */
module Tables {
  import opened Wrappers
  import opened Seqs
  import opened Numerals

  /** One cell: a number, text, or a missing value (pandas' NaN, or the
      `None` that `csv.DictReader` gives for a short row). */
  datatype Cell = Num(x: real) | Text(s: string) | Missing

  type Row = map<string, Cell>

  /** The rent column of the listing and sublet tables. */
  const MONTHLY_RENT := "monthly_rent"

  /** The Python exceptions the modelled code can raise. */
  datatype PyError =
    | KeyError(key: string)   // a column the code indexes is absent
    | TypeError               // `float(None)`
    | ValueError              // e.g. fitting a regression on zero rows

  datatype Table = Table(columns: seq<string>, rows: seq<Row>)

  /** Reading a column of a row; a row without the column reads as missing. */
  function CellAt(r: Row, col: string): Cell
  {
    if col in r then r[col] else Missing
  }

  /** pandas `to_numeric(..., errors='coerce')` on one cell: numbers stay,
      text is parsed, anything else becomes NaN (`None` here). */
  function ToNumeric(c: Cell): (r: Option<real>)
    ensures c.Num? ==> r == Some(c.x)
    ensures c.Missing? ==> r.None?
    ensures c.Text? ==> r == PyFloat(c.s)
  {
    match c
    case Num(x) => Some(x)
    case Text(s) => PyFloat(s)
    case Missing => None
  }

  predicate Coercible(col: string, r: Row) { ToNumeric(CellAt(r, col)).Some? }

  /** `r` with column `col` replaced by its numeric value. */
  function SetNumeric(col: string, r: Row): Row
    requires Coercible(col, r)
  {
    r[col := Num(ToNumeric(CellAt(r, col)).value)]
  }

  predicate NumericAt(col: string, r: Row) { col in r && r[col].Num? }

  /** `df[col] = pd.to_numeric(df[col], errors='coerce'); df = df.dropna(subset=[col])`:
      the rows whose `col` coerces to a number, with that number stored. */
  function CoerceColumn(rows: seq<Row>, col: string): (r: seq<Row>)
    ensures |r| <= |rows|
    ensures forall i :: 0 <= i < |r| ==> NumericAt(col, r[i])
  {
    if rows == [] then []
    else
      (if Coercible(col, rows[0]) then [SetNumeric(col, rows[0])] else [])
      + CoerceColumn(rows[1..], col)
  }

  /** Coercion works row by row, so it distributes over concatenation. */
  lemma {:induction false} CoerceAppend(a: seq<Row>, b: seq<Row>, col: string)
    ensures CoerceColumn(a + b, col) == CoerceColumn(a, col) + CoerceColumn(b, col)
  {
    if a == [] {
      assert a + b == b;
    } else {
      assert (a + b)[0] == a[0];
      assert (a + b)[1..] == a[1..] + b;
      CoerceAppend(a[1..], b, col);
    }
  }

  /** One more row appends that row, coerced, when its cell coerces. */
  lemma CoerceStep(rows: seq<Row>, i: nat, col: string)
    requires i < |rows|
    ensures CoerceColumn(rows[..i + 1], col) ==
            CoerceColumn(rows[..i], col) + (if Coercible(col, rows[i]) then [SetNumeric(col, rows[i])] else [])
  {
    assert rows[..i + 1] == rows[..i] + [rows[i]];
    CoerceAppend(rows[..i], [rows[i]], col);
    assert [rows[i]][1..] == [];
  }

  /** The rows that survive coercion, in input order, before their cell is rewritten. */
  function Survivors(rows: seq<Row>, col: string): (r: seq<Row>)
    ensures forall i :: 0 <= i < |r| ==> Coercible(col, r[i])
  {
    Filter(rows, r => Coercible(col, r))
  }

  /** Coercion keeps exactly the coercible rows, in order, and changes only
      the coerced column of each: the `k`-th output row is the `k`-th
      survivor with `col` rewritten to its number. */
  lemma {:induction false} CoerceKeepsExactlyCoercible(rows: seq<Row>, col: string)
    ensures |CoerceColumn(rows, col)| == |Survivors(rows, col)|
    ensures forall k :: 0 <= k < |CoerceColumn(rows, col)| ==>
              CoerceColumn(rows, col)[k] == SetNumeric(col, Survivors(rows, col)[k])
  {
    if rows != [] {
      CoerceKeepsExactlyCoercible(rows[1..], col);
    }
  }

  /** When every cell of `col` is already a number, coercion returns the rows unchanged. */
  lemma {:induction false} CoerceNumericIsIdentity(rows: seq<Row>, col: string)
    requires forall i :: 0 <= i < |rows| ==> NumericAt(col, rows[i])
    ensures CoerceColumn(rows, col) == rows
  {
    if rows != [] {
      CoerceNumericIsIdentity(rows[1..], col);
      assert SetNumeric(col, rows[0]) == rows[0];
    }
  }

  /** A row whose cell fails coercion is dropped, whatever else it holds. */
  lemma {:induction false} CoerceDropsBadRow(a: seq<Row>, bad: Row, b: seq<Row>, col: string)
    requires !Coercible(col, bad)
    ensures CoerceColumn(a + [bad] + b, col) == CoerceColumn(a, col) + CoerceColumn(b, col)
  {
    CoerceAppend(a + [bad], b, col);
    CoerceAppend(a, [bad], col);
    assert CoerceColumn([bad], col) == [];
  }
}
