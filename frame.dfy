/** The pandas DataFrame the rows are loaded into, and `convert_df_types`,
    which rewrites its columns in place, one column at a time. */
module Frame {
  import opened Wrappers
  import opened Errors
  import opened Schema
  import opened Numbers
  import opened Xml
  import opened Extract

  /** A column and its dtype: `object` as built from the rows, `string`
      after astype("string"), `int64` after astype("int64"). A missing
      text (None, pandas' NA) is kept as None. */
  datatype Column =
    | Object(cells: seq<Option<string>>)
    | Text(cells: seq<Option<string>>)
    | Int(values: seq<int>)
  {
    function Length(): nat {
      match this
      case Object(cells) => |cells|
      case Text(cells) => |cells|
      case Int(values) => |values|
    }
  }

  /** The column `name` of `pd.DataFrame(data=rows, columns=...)`: each
      row's entry for that name, NA where a row lacks it. */
  function ColumnOf(rows: seq<Row>, name: string): (cells: seq<Option<string>>)
    ensures |cells| == |rows|
  {
    seq(|rows|, i requires 0 <= i < |rows| => if name in rows[i] then rows[i][name] else None)
  }

  /** The columns of `pd.DataFrame(data=rows, columns=columns)`: one
      column per listed name and no other, each with one cell per row,
      still untyped. */
  function FrameData(rows: seq<Row>, columns: seq<string>): (data: map<string, Column>)
    ensures forall c :: c in data <==> c in columns
    ensures forall c :: c in columns ==> data[c].Object? && data[c].Length() == |rows|
  {
    map c | c in columns :: Object(ColumnOf(rows, c))
  }

  /** The column of a schema field in the table built from a page's rows:
      cell i is the field of the i-th item's row, so the texts read from
      the i-th item, and the amount without its commas. */
  lemma ColumnOfItems(items: seq<Element>, f: string, i: nat)
    requires ExtractRows(items).Ok? && f in Fields && i < |items|
    ensures i < |ExtractRows(items).value|
    ensures ColumnOf(ExtractRows(items).value, f)[i] == ExtractRow(items[i]).value[f]
    ensures f != AmountField ==> ColumnOf(ExtractRows(items).value, f)[i] == FieldText(items[i], f)
    ensures f == AmountField ==>
              ColumnOf(ExtractRows(items).value, f)[i] == Some(StripCommas(FieldText(items[i], AmountField).value))
  {
    ExtractRowsValues(items);
    assert ExtractRow(items[i]).Ok?;
  }

  /** One cell of astype("int64"): int() of the text, which must fit in 64
      bits. */
  function CellToInt(cell: Option<string>): (r: Result<int, Error>)
    ensures r.Ok? <==> cell.Some? && ParseDecimal(cell.value).Some?
                       && Int64Min <= ParseDecimal(cell.value).value <= Int64Max
    ensures r.Ok? ==> r.value == ParseDecimal(cell.value).value
  {
    match cell
    case None => Err(TypeError)
    case Some(text) =>
      match ParseDecimal(text)
      case None => Err(ValueError)
      case Some(n) => if Int64Min <= n <= Int64Max then Ok(n) else Err(OverflowError)
  }

  /** astype("int64") on text cells: every cell converted, in order; the
      first cell that does not convert raises its error. */
  function CellsToInt(cells: seq<Option<string>>): (r: Result<seq<int>, Error>)
    ensures r.Ok? <==> forall i :: 0 <= i < |cells| ==> CellToInt(cells[i]).Ok?
    ensures r.Ok? ==> |r.value| == |cells|
    ensures r.Ok? ==> forall i :: 0 <= i < |cells| ==> r.value[i] == CellToInt(cells[i]).value
    ensures r.Err? ==> exists i :: 0 <= i < |cells| && CellToInt(cells[i]) == Err(r.error)
    decreases |cells|
  {
    if cells == [] then Ok([])
    else
      var init, last := cells[..|cells| - 1], cells[|cells| - 1];
      assert forall i :: 0 <= i < |init| ==> init[i] == cells[i];
      match CellsToInt(init)
      case Err(e) => Err(e)
      case Ok(values) =>
        match CellToInt(last)
        case Err(e) => Err(e)
        case Ok(v) => Ok(values + [v])
  }

  /** `column.astype(t)`. A string column keeps its text exactly, so codes
      with leading zeros survive; an integer column parses every cell. */
  function Coerce(col: Column, t: ColumnType): (r: Result<Column, Error>)
    ensures r.Ok? ==> r.value.Length() == col.Length()
    ensures t == Str ==> r.Ok? && r.value.Text?
    ensures t == Str && !col.Int? ==> r == Ok(Text(col.cells))
    ensures t == Int64 ==> r.Err? || r.value.Int?
  {
    match (col, t)
    case (Int(values), Int64) => Ok(col)
    case (Int(values), Str) => Ok(Text(seq(|values|, i requires 0 <= i < |values| => Some(ShowInt(values[i])))))
    case (_, Str) => Ok(Text(col.cells))
    case (_, Int64) =>
      match CellsToInt(col.cells)
      case Err(e) => Err(e)
      case Ok(values) => Ok(Int(values))
  }

  /** The state `convert_df_types` leaves behind: the columns as far as it
      got, and the error that stopped it, if any. */
  datatype Conversion = Conversion(data: map<string, Column>, failure: Option<Error>)

  /** `for col in columns: df[col] = df[col].astype(dtypes.get(col))`,
      stopping at the first column that fails. */
  function ConvertColumns(columns: seq<string>, data: map<string, Column>, dtypes: seq<(string, ColumnType)>): (r: Conversion)
    requires forall c :: c in columns ==> c in data && Get(dtypes, c).Some?
    ensures r.data.Keys == data.Keys
    decreases |columns|
  {
    if columns == [] then Conversion(data, None)
    else
      var init, c := columns[..|columns| - 1], columns[|columns| - 1];
      assert forall x :: x in init ==> x in columns;
      var prev := ConvertColumns(init, data, dtypes);
      if prev.failure.Some? then prev
      else
        match Coerce(prev.data[c], Get(dtypes, c).value)
        case Err(e) => Conversion(prev.data, Some(e))
        case Ok(col) => Conversion(prev.data[c := col], None)
  }

  /** Once some prefix of the columns fails, converting all of them fails
      the same way, leaving the later columns untouched. */
  lemma {:induction false} ConvertColumnsStops(columns: seq<string>, k: nat, data: map<string, Column>, dtypes: seq<(string, ColumnType)>)
    requires forall c :: c in columns ==> c in data && Get(dtypes, c).Some?
    requires k <= |columns|
    requires ConvertColumns(columns[..k], data, dtypes).failure.Some?
    ensures ConvertColumns(columns, data, dtypes) == ConvertColumns(columns[..k], data, dtypes)
    decreases |columns| - k
  {
    if k < |columns| {
      var p := columns[..k + 1];
      assert p[..|p| - 1] == columns[..k];
      ConvertColumnsStops(columns, k + 1, data, dtypes);
    } else {
      assert columns[..k] == columns;
    }
  }

  /** Distinct names split into those before the last one and the last
      one, which is not among them. */
  lemma SplitLast(columns: seq<string>)
    requires columns != []
    requires forall i, j :: 0 <= i < j < |columns| ==> columns[i] != columns[j]
    ensures var init, last := columns[..|columns| - 1], columns[|columns| - 1];
            && (forall i, j :: 0 <= i < j < |init| ==> init[i] != init[j])
            && last !in init
            && (forall c :: c in columns <==> c in init || c == last)
  {
    var init, last := columns[..|columns| - 1], columns[|columns| - 1];
    assert columns == init + [last];
    forall i | 0 <= i < |init| ensures init[i] != last {
      assert init[i] == columns[i];
    }
  }

  /** With distinct column names, a conversion that succeeds has replaced
      every listed column by its coerced value and left every other
      column as it was. */
  lemma {:induction false} ConvertColumnsOk(columns: seq<string>, data: map<string, Column>, dtypes: seq<(string, ColumnType)>)
    requires forall c :: c in columns ==> c in data && Get(dtypes, c).Some?
    requires forall i, j :: 0 <= i < j < |columns| ==> columns[i] != columns[j]
    requires ConvertColumns(columns, data, dtypes).failure.None?
    ensures forall c :: c in columns ==>
              Coerce(data[c], Get(dtypes, c).value) == Ok(ConvertColumns(columns, data, dtypes).data[c])
    ensures forall c :: c in data && c !in columns ==> ConvertColumns(columns, data, dtypes).data[c] == data[c]
    decreases |columns|
  {
    if columns != [] {
      var init, last := columns[..|columns| - 1], columns[|columns| - 1];
      SplitLast(columns);
      ConvertColumnsOk(init, data, dtypes);
      var prev := ConvertColumns(init, data, dtypes);
      assert prev.data[last] == data[last];
      var col := Coerce(prev.data[last], Get(dtypes, last).value).value;
      var now := ConvertColumns(columns, data, dtypes).data;
      assert now == prev.data[last := col];
      forall c | c in columns
        ensures Coerce(data[c], Get(dtypes, c).value) == Ok(now[c])
      {
        if c != last { assert now[c] == prev.data[c]; }
      }
    }
  }

  /** With distinct column names, a conversion fails exactly when some
      listed column does not coerce. */
  lemma {:induction false} ConvertColumnsFails(columns: seq<string>, data: map<string, Column>, dtypes: seq<(string, ColumnType)>)
    requires forall c :: c in columns ==> c in data && Get(dtypes, c).Some?
    requires forall i, j :: 0 <= i < j < |columns| ==> columns[i] != columns[j]
    ensures ConvertColumns(columns, data, dtypes).failure.None?
        <==> forall c :: c in columns ==> Coerce(data[c], Get(dtypes, c).value).Ok?
    decreases |columns|
  {
    if columns != [] {
      var init, last := columns[..|columns| - 1], columns[|columns| - 1];
      SplitLast(columns);
      ConvertColumnsFails(init, data, dtypes);
      if ConvertColumns(init, data, dtypes).failure.None? {
        ConvertColumnsOk(init, data, dtypes);
      }
    }
  }

  /** Over distinct schema columns that include the amount, the
      conversion fails exactly when the amount column does not convert to
      int64: a string coercion never fails. */
  lemma ConvertFailsOnAmount(columns: seq<string>, data: map<string, Column>, dtypes: seq<(string, ColumnType)>)
    requires forall c :: c in columns ==> c in data && Get(dtypes, c) == Some(if c == AmountField then Int64 else Str)
    requires forall i, j :: 0 <= i < j < |columns| ==> columns[i] != columns[j]
    requires AmountField in columns
    ensures ConvertColumns(columns, data, dtypes).failure.None? <==> Coerce(data[AmountField], Int64).Ok?
  {
    ConvertColumnsFails(columns, data, dtypes);
    if Coerce(data[AmountField], Int64).Ok? {
      assert forall c :: c in columns ==> Coerce(data[c], Get(dtypes, c).value).Ok?;
    }
  }

  /** The amount column of the frame built from `rows` converts exactly
      when all its cells convert to int64, and then to those values. */
  lemma CoerceAmountColumn(rows: seq<Row>, columns: seq<string>)
    requires AmountField in columns
    ensures var r := Coerce(FrameData(rows, columns)[AmountField], Int64);
            && (r.Ok? <==> CellsToInt(ColumnOf(rows, AmountField)).Ok?)
            && (r.Ok? ==> r.value == Int(CellsToInt(ColumnOf(rows, AmountField)).value))
  {
  }

  /** Converting the frame built from `rows`, over distinct schema columns
      that include the amount, succeeds exactly when every amount cell
      converts to int64: the string columns never fail. */
  lemma ConvertRowsFails(rows: seq<Row>, columns: seq<string>, dtypes: seq<(string, ColumnType)>)
    requires forall c :: c in columns ==> Get(dtypes, c) == Some(if c == AmountField then Int64 else Str)
    requires forall i, j :: 0 <= i < j < |columns| ==> columns[i] != columns[j]
    requires AmountField in columns
    ensures ConvertColumns(columns, FrameData(rows, columns), dtypes).failure.None?
        <==> CellsToInt(ColumnOf(rows, AmountField)).Ok?
  {
    ConvertFailsOnAmount(columns, FrameData(rows, columns), dtypes);
    CoerceAmountColumn(rows, columns);
  }

  /** In the frame built from `rows`, every string column of the schema
      coerces to the row texts, unchanged. */
  lemma CoerceTextColumns(rows: seq<Row>, columns: seq<string>, dtypes: seq<(string, ColumnType)>)
    requires forall c :: c in columns ==> Get(dtypes, c) == Some(if c == AmountField then Int64 else Str)
    ensures forall c :: c in columns && c != AmountField ==>
              Coerce(FrameData(rows, columns)[c], Get(dtypes, c).value) == Ok(Text(ColumnOf(rows, c)))
  {
    forall c | c in columns && c != AmountField
      ensures Coerce(FrameData(rows, columns)[c], Get(dtypes, c).value) == Ok(Text(ColumnOf(rows, c)))
    {
    }
  }

  /** When every amount cell converts, the conversion succeeds, and the
      amount column holds the parsed
      amounts and every other column the row texts, unchanged (so codes
      with leading zeros keep them). */
  lemma ConvertRowsOk(rows: seq<Row>, columns: seq<string>, dtypes: seq<(string, ColumnType)>)
    requires forall c :: c in columns ==> Get(dtypes, c) == Some(if c == AmountField then Int64 else Str)
    requires forall i, j :: 0 <= i < j < |columns| ==> columns[i] != columns[j]
    requires AmountField in columns
    requires CellsToInt(ColumnOf(rows, AmountField)).Ok?
    ensures ConvertColumns(columns, FrameData(rows, columns), dtypes).failure.None?
    ensures var conv := ConvertColumns(columns, FrameData(rows, columns), dtypes);
            && conv.data[AmountField] == Int(CellsToInt(ColumnOf(rows, AmountField)).value)
            && forall c :: c in columns && c != AmountField ==> conv.data[c] == Text(ColumnOf(rows, c))
    ensures var conv := ConvertColumns(columns, FrameData(rows, columns), dtypes);
            forall c :: c in columns ==> conv.data[c].Length() == |rows|
  {
    ConvertRowsFails(rows, columns, dtypes);
    ConvertColumnsOk(columns, FrameData(rows, columns), dtypes);
    CoerceAmountColumn(rows, columns);
    CoerceTextColumns(rows, columns, dtypes);
  }

  /** One more column converted: the conversion of columns[..i+1] is that
      of columns[..i] followed by the coercion of columns[i]. */
  lemma ConvertNext(columns: seq<string>, i: nat, start: map<string, Column>, data: map<string, Column>, dtypes: seq<(string, ColumnType)>)
    requires i < |columns|
    requires forall c :: c in columns ==> c in start && Get(dtypes, c).Some?
    requires ConvertColumns(columns[..i], start, dtypes) == Conversion(data, None)
    ensures columns[i] in data
    ensures forall c :: c in columns[..i + 1] ==> c in start && Get(dtypes, c).Some?
    ensures var c := columns[i];
            var r := Coerce(data[c], Get(dtypes, c).value);
            ConvertColumns(columns[..i + 1], start, dtypes)
              == if r.Err? then Conversion(data, Some(r.error)) else Conversion(data[c := r.value], None)
  {
    assert columns[..i + 1][..i] == columns[..i];
  }

  class DataFrame {
    var columns: seq<string>
    var data: map<string, Column>

    ghost predicate Valid()
      reads this
    {
      forall c :: c in columns ==> c in data
    }

    /** `pd.DataFrame(data=rows, columns=columns)`. */
    constructor (rows: seq<Row>, columns: seq<string>)
      ensures Valid()
      ensures this.columns == columns && data == FrameData(rows, columns)
    {
      this.columns := columns;
      data := FrameData(rows, columns);
    }

    /** `convert_df_types(df)`: each column, in order, replaced by its
        coercion to the schema type; an error stops the loop and leaves the
        columns before it converted. */
    method ConvertTypes(dtypes: seq<(string, ColumnType)>) returns (failure: Option<Error>)
      requires Valid()
      requires forall c :: c in columns ==> Get(dtypes, c).Some?
      modifies this
      ensures Valid() && columns == old(columns)
      ensures Conversion(data, failure) == ConvertColumns(columns, old(data), dtypes)
    {
      var cols := columns;
      ghost var start := data;
      var i := 0;
      failure := None;
      while i < |cols|
        invariant 0 <= i <= |cols|
        invariant columns == cols && data.Keys == start.Keys
        invariant forall c :: c in cols ==> c in start && Get(dtypes, c).Some?
        invariant ConvertColumns(cols[..i], start, dtypes) == Conversion(data, None)
      {
        var c := cols[i];
        ConvertNext(cols, i, start, data, dtypes);
        var r := Coerce(data[c], Get(dtypes, c).value);
        if r.Err? {
          failure := Some(r.error);
          ConvertColumnsStops(cols, i + 1, start, dtypes);
          return;
        }
        data := data[c := r.value];
        i := i + 1;
      }
      assert cols[..i] == cols;
    }
  }
}
