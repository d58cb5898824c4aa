/** One run of the script (app.py lines 20-56 and 70), with the sidebar selections
    as inputs and the rendering calls replaced by the value they would show. */
module Dashboard {
  import opened Wrappers
  import opened Seqs
  import opened Ordering
  import opened Lex
  import opened Columns
  import opened Numerals
  import opened Loader
  import opened Engine

  /** The option lists of the three sidebar controls. */
  datatype Options = Options(months: seq<string>, genders: seq<string>, states: seq<string>)

  /** What a run ends with: the schema error (`st.stop()`), the empty-result
      warning, or the chart's rows and the filtered table. */
  datatype View =
    | SchemaFailure(missing: seq<string>, columns: seq<string>)
    | EmptyWarning(options: Options)
    | Shown(options: Options, chart: seq<AggRow>, table: seq<Record>)

  function OptionsOf(records: seq<Record>): (opts: Options)
    ensures |opts.months| >= 1 && |opts.genders| >= 1 && |opts.states| >= 1
    ensures opts.months[0] == All && opts.genders[0] == All && opts.states[0] == All
    ensures Ascending(Less, opts.months[1..]) && Ascending(Less, opts.genders[1..])
    ensures Ascending(Less, opts.states[1..])
    ensures forall v :: v in opts.months[1..] <==> Occurs(records, Month, v)
    ensures forall v :: v in opts.genders[1..] <==> Occurs(records, Gender, v)
    ensures forall v :: v in opts.states[1..] <==> Occurs(records, State, v)
  {
    Options(OptionList(records, Month), OptionList(records, Gender), OptionList(records, State))
  }

  /** The script from the header line to the table: a schema error halts before
      any option list or filter; otherwise the options are built from the cleaned
      records and the engine runs on the user's selection. */
  method Render(header: seq<string>, cells: seq<seq<string>>, sel: Selection) returns (view: View)
    requires Rectangular(header, cells)
    ensures view.SchemaFailure? <==> MissingFields(NormalizeAll(header)) != []
    ensures view.SchemaFailure? ==>
      view.missing == MissingFields(NormalizeAll(header)) && view.columns == NormalizeAll(header)
    ensures !view.SchemaFailure? ==>
      var data := Clean(NormalizeAll(header), cells);
      && view.options == OptionsOf(data)
      && (view.EmptyWarning? <==> Selected(data, sel) == [])
      && (view.Shown? ==> view.table == Selected(data, sel) && view.chart == Aggregate(view.table))
  {
    var loaded := Load(header, cells);
    if loaded.SchemaError? {
      return SchemaFailure(loaded.missing, loaded.columns);
    }
    var options := OptionsOf(loaded.records);
    var outcome := Run(loaded.records, sel);
    if outcome.EmptyResult? {
      return EmptyWarning(options);
    }
    return Shown(options, outcome.chart, outcome.table);
  }

  /** The births cells of the worked example below. */
  lemma ExampleParses()
    ensures ParseBirths("10") == Some(10) && ParseBirths("5") == Some(5)
    ensures ParseBirths("bad") == None
  {
    assert AllDigits("10") && "10"[..1] == "1" && "1"[..0] == "";
    assert DigitsValue("1") == 1;
    assert DigitsValue("10") == 10;
    assert AllDigits("5") && "5"[..0] == "";
    assert DigitsValue("5") == 5;
    assert !IsDigit("bad"[0]) && !IsDigit("bad"[1..][0]);
  }

  /** A worked example: the row whose births do not parse is dropped, and with
      "All" everywhere the chart has one row per (state, sex), sex ascending
      within the state as `groupby` orders its keys. */
  lemma CaliforniaExample(raw: seq<Record>)
    requires raw == [
      Record("CA", "1", "1", "2025", "M", ParseBirths("10")),
      Record("CA", "1", "1", "2025", "F", ParseBirths("5")),
      Record("NY", "2", "2", "2025", "M", ParseBirths("bad"))]
    ensures DropUnparsed(raw) == raw[..2]
    ensures Aggregate(Selected(DropUnparsed(raw), Selection([All], [All], [All])))
         == [AggRow("CA", "F", 5), AggRow("CA", "M", 10)]
  {
    ExampleParses();
    var r0 := Record("CA", "1", "1", "2025", "M", Some(10));
    var r1 := Record("CA", "1", "1", "2025", "F", Some(5));
    assert raw == [r0, r1, Record("NY", "2", "2", "2025", "M", None)];
    ExampleDrop(raw);
    var data := DropUnparsed(raw);
    assert data == [r0, r1];
    var sel := Selection([All], [All], [All]);
    assert All in sel.months && All in sel.genders && All in sel.states;
    AllEverywhereKeepsEverything(data, sel);
    assert Selected(data, sel) == data;
    ExampleAggregate(data);
  }

  /** The record whose births are missing is the one `dropna` removes. */
  lemma ExampleDrop(raw: seq<Record>)
    requires raw == [
      Record("CA", "1", "1", "2025", "M", Some(10)),
      Record("CA", "1", "1", "2025", "F", Some(5)),
      Record("NY", "2", "2", "2025", "M", None)]
    ensures DropUnparsed(raw) == raw[..2]
  {
    assert raw[1..][1..][1..] == [];
    assert Filter(raw[1..][1..], HasBirths) == [];
    assert Filter(raw[1..], HasBirths) == [raw[1]];
  }

  /** The two parsed rows of the example, as the group-sum and the chart see them. */
  lemma ExampleAggregate(data: seq<Record>)
    requires data == [Record("CA", "1", "1", "2025", "M", Some(10)), Record("CA", "1", "1", "2025", "F", Some(5))]
    ensures Aggregate(data) == [AggRow("CA", "F", 5), AggRow("CA", "M", 10)]
  {
    var g := [AggRow("CA", "F", 5), AggRow("CA", "M", 10)];
    ExampleGroupSum(data);
    ExampleSorted(g);
  }

  lemma ExampleGroupSum(data: seq<Record>)
    requires data == [Record("CA", "1", "1", "2025", "M", Some(10)), Record("CA", "1", "1", "2025", "F", Some(5))]
    ensures GroupSum(data) == [AggRow("CA", "F", 5), AggRow("CA", "M", 10)]
  {
    assert Less("F", "M");
    assert RowKeys(data) == [Key("CA", "M"), Key("CA", "F")];
    KeyLessIsStrictTotalOrder();
    var ks := [Key("CA", "F"), Key("CA", "M")];
    var sd := SortedDistinct(KeyLess, RowKeys(data));
    AscendingUnique(KeyLess, sd, ks);
    assert data[1..][1..] == [];
    assert GroupTotal(data[1..], ks[0]) == 5 && GroupTotal(data[1..], ks[1]) == 0;
    assert GroupTotal(data, ks[0]) == 5 && GroupTotal(data, ks[1]) == 10;
  }

  /** Rows of one state are already sorted by state. */
  lemma ExampleSorted(g: seq<AggRow>)
    requires g == [AggRow("CA", "F", 5), AggRow("CA", "M", 10)]
    ensures SortByState(g) == g
  {
    assert !Less("CA", "CA");
    assert g[..1] == [g[0]] && g[..1][..0] == [];
    assert SortByState(g[..1]) == [g[0]];
  }
}
