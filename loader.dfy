/** Loading the dataset: header normalisation, the schema check, the births
    coercion and the dropping of rows whose births did not parse (app.py lines 20-31). */
module Loader {
  import opened Wrappers
  import opened Seqs
  import opened Columns
  import opened Numerals

  /** One birth-count observation. The category fields hold the string form of
      their cells; `births` is `None` where coercion failed. */
  datatype Record = Record(
    state: string,
    month: string,
    monthCode: string,
    yearCode: string,
    sex: string,
    births: Option<int>)

  /** What loading produces: the schema error that halts the dashboard, naming the
      missing fields and the columns that were seen, or the cleaned records. */
  datatype Loaded =
    | SchemaError(missing: seq<string>, columns: seq<string>)
    | Dataset(records: seq<Record>)

  /** The cells form a table: every row has one cell per header. */
  ghost predicate Rectangular(header: seq<string>, cells: seq<seq<string>>)
  {
    forall k :: 0 <= k < |cells| ==> |cells[k]| == |header|
  }

  /** The cell of `row` in the column labelled `name`. */
  function Cell(cols: seq<string>, row: seq<string>, name: string): string
    requires name in cols && |row| == |cols|
  {
    row[IndexOf(cols, name)]
  }

  /** A header that passes the schema check has each required column. */
  lemma RequiredPresent(cols: seq<string>)
    requires MissingFields(cols) == []
    ensures "state_of_residence" in cols && "month" in cols && "month_code" in cols
    ensures "year_code" in cols && "sex_of_infant" in cols && "births" in cols
  {
    assert forall f :: f in RequiredFields ==> f in cols;
    assert RequiredFields[0] == "state_of_residence" && RequiredFields[1] == "month";
    assert RequiredFields[2] == "month_code" && RequiredFields[3] == "year_code";
    assert RequiredFields[4] == "sex_of_infant" && RequiredFields[5] == "births";
  }

  /** One row read through the normalised header, with births coerced (line 30). */
  function ToRecord(cols: seq<string>, row: seq<string>): (r: Record)
    requires MissingFields(cols) == [] && |row| == |cols|
    ensures r.births == ParseBirths(Cell(cols, row, "births"))
    ensures r.state == Cell(cols, row, "state_of_residence") && r.sex == Cell(cols, row, "sex_of_infant")
    ensures r.month == Cell(cols, row, "month")
  {
    RequiredPresent(cols);
    Record(
      Cell(cols, row, "state_of_residence"),
      Cell(cols, row, "month"),
      Cell(cols, row, "month_code"),
      Cell(cols, row, "year_code"),
      Cell(cols, row, "sex_of_infant"),
      ParseBirths(Cell(cols, row, "births")))
  }

  function ToRecords(cols: seq<string>, cells: seq<seq<string>>): (rs: seq<Record>)
    requires MissingFields(cols) == [] && Rectangular(cols, cells)
    ensures |rs| == |cells|
    ensures forall k :: 0 <= k < |cells| ==> rs[k] == ToRecord(cols, cells[k])
  {
    seq(|cells|, k requires 0 <= k < |cells| => ToRecord(cols, cells[k]))
  }

  predicate HasBirths(r: Record)
  {
    r.births.Some?
  }

  /** `dropna(subset=['births'])` (line 31): the records whose births parsed, in order. */
  function DropUnparsed(records: seq<Record>): (kept: seq<Record>)
    ensures IsSubseq(kept, records)
    ensures forall r :: r in kept <==> r in records && r.births.Some?
    ensures forall r :: multiset(kept)[r] == if r.births.Some? then multiset(records)[r] else 0
  {
    Filter(records, HasBirths)
  }

  /** The cleaned dataset of a table whose header passes the schema check. */
  function Clean(cols: seq<string>, cells: seq<seq<string>>): seq<Record>
    requires MissingFields(cols) == [] && Rectangular(cols, cells)
  {
    DropUnparsed(ToRecords(cols, cells))
  }

  /** A row of the table survives cleaning exactly when its births cell is a numeral. */
  lemma CleanKeepsParsedRows(cols: seq<string>, cells: seq<seq<string>>, k: nat)
    requires MissingFields(cols) == [] && Rectangular(cols, cells) && k < |cells|
    ensures ToRecord(cols, cells[k]) in Clean(cols, cells) <==> IsNumeral(Cell(cols, cells[k], "births"))
  {
    assert ToRecords(cols, cells)[k] == ToRecord(cols, cells[k]);
  }

  /** Lines 20-31 of the script: `df` is rebound step by step. */
  method Load(header: seq<string>, cells: seq<seq<string>>) returns (res: Loaded)
    requires Rectangular(header, cells)
    ensures res.SchemaError? <==> exists f :: f in RequiredFields && f !in NormalizeAll(header)
    ensures res.SchemaError? ==>
      res.missing == MissingFields(NormalizeAll(header)) && res.columns == NormalizeAll(header)
    ensures res.Dataset? ==>
      MissingFields(NormalizeAll(header)) == [] && res.records == Clean(NormalizeAll(header), cells)
    ensures res.Dataset? ==> forall r :: r in res.records ==> r.births.Some?
  {
    var columns := NormalizeAll(header);
    var missing := MissingFields(columns);
    if missing != [] {
      return SchemaError(missing, columns);
    }
    var records := ToRecords(columns, cells);
    records := DropUnparsed(records);
    return Dataset(records);
  }
}
