/** `str_table`: rows (dicts from column name to value) printed as a
    fixed-width text table, optionally sorted by one field; and
    `str_table_columns`, the union of the rows' field names. The two report
    scripts that print tables carry identical copies of these functions. */
module Tables {
  import opened Wrappers
  import opened Text
  import opened Sorting
  import opened Dicts

  /** A value in a row. Python's `format` puts numbers on the right of
      their column and everything else on the left; a dict (the `Tags`
      field) is printed as its `str()`, each key and value in its `repr()`. */
  datatype Cell =
    | Str(s: string)
    | Int(i: int)
    | Decimal(tenths: int)                  // a float with one decimal
    | Mapping(d: Dict<string, string>)

  type Row = map<string, Cell>

  function Spaces(n: nat): (r: string)
    ensures |r| == n && forall i :: 0 <= i < n ==> r[i] == ' '
  {
    seq(n, _ => ' ')
  }

  /** `str(value)` */
  function Show(c: Cell): string
  {
    match c
    case Str(s) => s
    case Int(i) => IntToString(i)
    case Decimal(t) =>
      var m := if t < 0 then -t else t;
      (if t < 0 then "-" else "") + NatToString(m / 10) + "." + NatToString(m % 10)
    case Mapping(d) => "{" + Join(ShowItems(d.keys, d.entries), ", ") + "}"
  }

  function ShowItems(keys: seq<string>, entries: map<string, string>): seq<string>
    requires forall k :: k in keys ==> k in entries
  {
    seq(|keys|, i requires 0 <= i < |keys| => Repr(keys[i]) + ": " + Repr(entries[keys[i]]))
  }

  /** A dict of one entry shows as its key's and value's `repr()`. */
  lemma ShowSingleton(k: string, v: string)
    ensures Show(Mapping(Set(Empty(), k, v))) == "{" + Repr(k) + ": " + Repr(v) + "}"
  {
    var d: Dict<string, string> := Set(Empty(), k, v);
    assert d.keys == [k] && d.entries[k] == v;
    var items := ShowItems(d.keys, d.entries);
    assert items == [Repr(k) + ": " + Repr(v)];
    assert Join(items, ", ") == Repr(k) + ": " + Repr(v);
    assert Show(Mapping(d)) == "{" + Join(items, ", ") + "}";
  }

  /** A tag value holding an apostrophe (say `{"Owner": "bob's"}`) is
      shown in double quotes, its key in single quotes, as Python's `str`
      of the dict shows it. */
  lemma ShowApostropheTag(k: string, v: string)
    requires '"' !in k && forall i :: 0 <= i < |k| ==> KeptUnder(k[i], '\'')
    requires '\'' in v && '"' !in v && forall i :: 0 <= i < |v| ==> KeptUnder(v[i], '"')
    ensures Show(Mapping(Set(Empty(), k, v))) == "{'" + k + "': \"" + v + "\"}"
  {
    ShowSingleton(k, v);
    ReprPlain(k);
    ReprApostrophe(v);
  }

  /** `"{:{}}".format(value, width)`: padded to `width`, numbers on the
      right and text on the left; a longer value is not cut. */
  function FormatCell(c: Cell, width: nat): (r: string)
    ensures |r| == if |Show(c)| < width then width else |Show(c)|
  {
    var t := Show(c);
    if |t| >= width then t
    else if c.Int? || c.Decimal? then Spaces(width - |t|) + t
    else t + Spaces(width - |t|)
  }

  /** `"{:{}.{}}".format(col, width, width)`: cut to `width` characters,
      then padded on the right to exactly `width`. */
  function FormatHeader(col: string, width: nat): (r: string)
    ensures |r| == width
    ensures |col| >= width ==> r == col[..width]
    ensures |col| < width ==> r == col + Spaces(width - |col|)
  {
    if |col| >= width then col[..width] else col + Spaces(width - |col|)
  }

  /** `row[col]` when present, else the empty string. */
  function Lookup(row: Row, col: string): Cell
  {
    if col in row then row[col] else Str("")
  }

  // ---------------------------------------------------------------------
  // column widths

  /** `max(w, len(str(row[col])))` when `row` has `col`, else `w`. */
  function Widen(w: nat, row: Row, col: string): nat
  {
    if col in row && |Show(row[col])| > w then |Show(row[col])| else w
  }

  /** The longest printed value of `col` over the rows that have it. */
  function MaxLen(rows: seq<Row>, col: string): nat
    decreases |rows|
  {
    if rows == [] then 0
    else Widen(MaxLen(rows[..|rows| - 1], col), rows[|rows| - 1], col)
  }

  /** The width `str_table` gives a column: the header's length when
      there are no rows, otherwise the longest present value; never 0. */
  function Width(rows: seq<Row>, col: string): nat
  {
    var w := if rows == [] then |col| else MaxLen(rows, col);
    if w == 0 then 1 else w
  }

  /** `MaxLen` is the maximum: no present value is longer, and unless it
      is 0 some row's value has exactly that length. */
  lemma {:induction false} MaxLenIsMax(rows: seq<Row>, col: string)
    ensures forall i :: 0 <= i < |rows| && col in rows[i] ==> |Show(rows[i][col])| <= MaxLen(rows, col)
    ensures MaxLen(rows, col) > 0 ==>
      exists i :: 0 <= i < |rows| && col in rows[i] && |Show(rows[i][col])| == MaxLen(rows, col)
    decreases |rows|
  {
    if rows != [] {
      var n := |rows|;
      MaxLenIsMax(rows[..n - 1], col);
      assert forall i :: 0 <= i < n - 1 ==> rows[..n - 1][i] == rows[i];
    }
  }

  /** What the width loops of `str_table` compute. */
  lemma WidthIsMax(rows: seq<Row>, col: string)
    ensures Width(rows, col) >= 1
    ensures rows == [] ==> Width(rows, col) == if |col| == 0 then 1 else |col|
    ensures forall i :: 0 <= i < |rows| && col in rows[i] ==> |Show(rows[i][col])| <= Width(rows, col)
    ensures rows != [] && Width(rows, col) > 1 ==>
      exists i :: 0 <= i < |rows| && col in rows[i] && |Show(rows[i][col])| == Width(rows, col)
  {
    MaxLenIsMax(rows, col);
  }

  // ---------------------------------------------------------------------
  // the table text

  function HeaderText(columns: seq<string>, rows: seq<Row>): string
    decreases |columns|
  {
    if columns == [] then ""
    else
      var col := columns[|columns| - 1];
      HeaderText(columns[..|columns| - 1], rows) + FormatHeader(col, Width(rows, col)) + " "
  }

  function RowText(row: Row, columns: seq<string>, rows: seq<Row>): string
    decreases |columns|
  {
    if columns == [] then ""
    else
      var col := columns[|columns| - 1];
      RowText(row, columns[..|columns| - 1], rows) + FormatCell(Lookup(row, col), Width(rows, col)) + " "
  }

  function Lines(printed: seq<Row>, columns: seq<string>, rows: seq<Row>): string
    decreases |printed|
  {
    if printed == [] then ""
    else Lines(printed[..|printed| - 1], columns, rows) + RowText(printed[|printed| - 1], columns, rows) + "\n"
  }

  /** The value a row is sorted by: `row.get(orderby, "")`. */
  function OrderKey(orderby: string): Row -> SortKey
  {
    (row: Row) => CellKey(Lookup(row, orderby))
  }

  function CellKey(c: Cell): SortKey
  {
    match c
    case Str(s) => Textual(s)
    case Int(i) => Numeric(10 * i)
    case Decimal(t) => Numeric(t)
    case Mapping(_) => Textual(Show(c))
  }

  /** The rows in print order: as given, or stably sorted by `orderby`. */
  function OrderRows(rows: seq<Row>, orderby: Option<string>): seq<Row>
  {
    match orderby
    case None => rows
    case Some(field) => SortBy(rows, OrderKey(field))
  }

  /** `str_table(rows, columns, orderby)` */
  function Table(rows: seq<Row>, columns: seq<string>, orderby: Option<string>): string
  {
    HeaderText(columns, rows) + "\n" + Lines(OrderRows(rows, orderby), columns, rows)
  }

  /** Every line of the table is as wide as every other: one character per
      unit of each column's width plus the space after each column. */
  function LineWidth(columns: seq<string>, rows: seq<Row>): nat
    decreases |columns|
  {
    if columns == [] then 0
    else LineWidth(columns[..|columns| - 1], rows) + Width(rows, columns[|columns| - 1]) + 1
  }

  lemma {:induction false} HeaderWidth(columns: seq<string>, rows: seq<Row>)
    ensures |HeaderText(columns, rows)| == LineWidth(columns, rows)
    decreases |columns|
  {
    if columns != [] {
      HeaderWidth(columns[..|columns| - 1], rows);
    }
  }

  lemma {:induction false} RowWidth(row: Row, columns: seq<string>, rows: seq<Row>)
    requires row in rows
    ensures |RowText(row, columns, rows)| == LineWidth(columns, rows)
    decreases |columns|
  {
    if columns != [] {
      var col := columns[|columns| - 1];
      RowWidth(row, columns[..|columns| - 1], rows);
      WidthIsMax(rows, col);
      if col in row {
        var i :| 0 <= i < |rows| && rows[i] == row;
      }
    }
  }

  /** The table is rectangular: the header and every printed row have the
      same length, and the rows printed are exactly the rows given (in
      sorted order when `orderby` is set, ties kept in input order). */
  lemma TableShape(rows: seq<Row>, columns: seq<string>, orderby: Option<string>)
    ensures |HeaderText(columns, rows)| == LineWidth(columns, rows)
    ensures multiset(OrderRows(rows, orderby)) == multiset(rows)
    ensures forall r :: r in OrderRows(rows, orderby) ==> |RowText(r, columns, rows)| == LineWidth(columns, rows)
    ensures orderby.Some? ==> SortedBy(OrderRows(rows, orderby), OrderKey(orderby.value))
    ensures orderby.Some? ==> forall k ::
      Filter(OrderRows(rows, orderby), OrderKey(orderby.value), k) == Filter(rows, OrderKey(orderby.value), k)
  {
    HeaderWidth(columns, rows);
    if orderby.Some? {
      SortByPermutation(rows, OrderKey(orderby.value));
      SortBySorted(rows, OrderKey(orderby.value));
      forall k ensures Filter(OrderRows(rows, orderby), OrderKey(orderby.value), k) == Filter(rows, OrderKey(orderby.value), k) {
        SortByStable(rows, OrderKey(orderby.value), k);
      }
    }
    forall r | r in OrderRows(rows, orderby) ensures |RowText(r, columns, rows)| == LineWidth(columns, rows) {
      assert r in multiset(OrderRows(rows, orderby));
      RowWidth(r, columns, rows);
    }
  }

  // ---------------------------------------------------------------------
  // the loops of str_table

  /** `widths[col]` of the `defaultdict(lambda: 0)`. */
  function WidthOf(widths: map<string, nat>, col: string): nat
  {
    if col in widths then widths[col] else 0
  }

  /** `str_table(rows, columns, orderby)` as the source writes it: a width
      pass over every row and column, a header pass that raises a zero
      width to 1, and a pass over the (sorted) rows. */
  method StrTable(rows: seq<Row>, columns: seq<string>, orderby: Option<string>) returns (text: string)
    ensures text == Table(rows, columns, orderby)
  {
    var widths := ComputeWidths(rows, columns);
    var header;
    widths, header := HeaderPass(rows, columns, widths);
    var body := BodyPass(OrderRows(rows, orderby), columns, rows, widths);
    text := header + "\n" + body;
  }

  /** The row loop of `str_table`, over the rows in print order. */
  method BodyPass(printed: seq<Row>, columns: seq<string>, rows: seq<Row>, widths: map<string, nat>)
    returns (text: string)
    requires forall c :: c in columns ==> WidthOf(widths, c) == Width(rows, c)
    ensures text == Lines(printed, columns, rows)
  {
    text := "";
    for i := 0 to |printed|
      invariant text == Lines(printed[..i], columns, rows)
    {
      var line := FormatRow(printed[i], columns, rows, widths);
      text := text + line + "\n";
      assert printed[..i + 1][..i] == printed[..i];
    }
    assert printed[..|printed|] == printed;
  }

  /** The header loop of `str_table`. */
  method HeaderPass(rows: seq<Row>, columns: seq<string>, widths0: map<string, nat>)
    returns (widths: map<string, nat>, text: string)
    requires forall c :: c in columns ==> WidthOf(widths0, c) == if rows == [] then |c| else MaxLen(rows, c)
    ensures forall c :: c in columns ==> WidthOf(widths, c) == Width(rows, c)
    ensures text == HeaderText(columns, rows)
  {
    widths := widths0;
    text := "";
    for j := 0 to |columns|
      invariant forall c :: c in columns && c !in columns[..j] ==> WidthOf(widths, c) == WidthOf(widths0, c)
      invariant forall c :: c in columns[..j] ==> WidthOf(widths, c) == Width(rows, c)
      invariant text == HeaderText(columns[..j], rows)
    {
      var col := columns[j];
      if WidthOf(widths, col) == 0 {
        widths := widths[col := 1];
      }
      text := text + FormatHeader(col, WidthOf(widths, col)) + " ";
      assert columns[..j + 1] == columns[..j] + [col];
    }
    assert columns[..|columns|] == columns;
  }

  /** The first loop of `str_table`. */
  method ComputeWidths(rows: seq<Row>, columns: seq<string>) returns (widths: map<string, nat>)
    ensures forall c :: c in columns ==> WidthOf(widths, c) == if rows == [] then |c| else MaxLen(rows, c)
  {
    widths := map[];
    if |rows| == 0 {
      for j := 0 to |columns|
        invariant forall c :: c in columns[..j] ==> WidthOf(widths, c) == |c|
      {
        widths := widths[columns[j] := |columns[j]|];
        assert columns[..j + 1] == columns[..j] + [columns[j]];
      }
      assert columns[..|columns|] == columns;
      return;
    }
    for i := 0 to |rows|
      invariant forall c :: c in columns ==> WidthOf(widths, c) == MaxLen(rows[..i], c)
    {
      assert rows[..i + 1][..i] == rows[..i];
      widths := WidenRow(widths, rows[i], columns);
    }
    assert rows[..|rows|] == rows;
  }

  /** The inner loop of the width pass: one row widens its columns. */
  method WidenRow(widths0: map<string, nat>, row: Row, columns: seq<string>) returns (widths: map<string, nat>)
    ensures forall c :: c in columns ==> WidthOf(widths, c) == Widen(WidthOf(widths0, c), row, c)
  {
    widths := widths0;
    for j := 0 to |columns|
      invariant forall c :: c in columns[..j] ==> WidthOf(widths, c) == Widen(WidthOf(widths0, c), row, c)
      invariant forall c :: c !in columns[..j] ==> WidthOf(widths, c) == WidthOf(widths0, c)
    {
      var col := columns[j];
      if col in row {
        var w := |Show(row[col])|;
        widths := widths[col := if WidthOf(widths, col) > w then WidthOf(widths, col) else w];
      }
      assert columns[..j + 1] == columns[..j] + [col];
    }
    assert columns[..|columns|] == columns;
  }

  /** One row of the last loop of `str_table`. */
  method FormatRow(row: Row, columns: seq<string>, rows: seq<Row>, widths: map<string, nat>) returns (line: string)
    requires forall c :: c in columns ==> WidthOf(widths, c) == Width(rows, c)
    ensures line == RowText(row, columns, rows)
  {
    line := "";
    for j := 0 to |columns|
      invariant line == RowText(row, columns[..j], rows)
    {
      var col := columns[j];
      var data := if col in row then row[col] else Str("");
      assert data == Lookup(row, col) && WidthOf(widths, col) == Width(rows, col);
      assert columns[..j + 1][..j] == columns[..j] && columns[..j + 1][j] == col;
      line := line + FormatCell(data, WidthOf(widths, col)) + " ";
    }
    assert columns[..|columns|] == columns;
  }

  // ---------------------------------------------------------------------
  // str_table_columns

  /** `str_table_columns(rows)`: every field name that occurs in some row. */
  method TableColumns(rows: seq<Row>) returns (columns: set<string>)
    ensures forall c :: c in columns <==> exists i :: 0 <= i < |rows| && c in rows[i]
  {
    columns := {};
    for i := 0 to |rows|
      invariant forall c :: c in columns <==> exists j :: 0 <= j < i && c in rows[j]
    {
      columns := columns + rows[i].Keys;
    }
  }
}
