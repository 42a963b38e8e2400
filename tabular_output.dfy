/**
 * A table builder (util/TabularOutput.java). Columns are defined first,
 * each with a header and a format string; then rows of one value per
 * column are added. The table renders as a header line, a line of dashes
 * under each header, and one line per row, or a "<no data>" notice when
 * there are no rows.
 *
 * Formatting one cell with a column's format string (String.format) is the
 * parameter `cell`; colouring the header lines cyan and the notice red
 * (AnsiUtils.color, which is not part of this model) are the parameters
 * `cyan` and `red`.
 */
module TabularOutputModel {
  import opened Base

  datatype ColumnDef = ColumnDef(header: string, formatString: string)

  const NO_DATA := "<no data>"

  /** Every row has exactly one value per column. */
  predicate Rectangular(cols: seq<ColumnDef>, rows: seq<seq<string>>)
  {
    forall i :: 0 <= i < |rows| ==> |rows[i]| == |cols|
  }

  /** Each value formatted by its column's format string. */
  function Cells(cols: seq<ColumnDef>, values: seq<string>, cell: (string, string) -> string): (r: seq<string>)
    requires |values| == |cols|
    ensures |r| == |cols|
  {
    seq(|cols|, j requires 0 <= j < |cols| => cell(cols[j].formatString, values[j]))
  }

  /** One line of the table: the cells separated by single spaces, trailing whitespace stripped. */
  function Line(cols: seq<ColumnDef>, values: seq<string>, cell: (string, string) -> string): string
    requires |values| == |cols|
  {
    StripTrailing(Join(Cells(cols, values, cell), ' '), 2)
  }

  function Headers(cols: seq<ColumnDef>): (r: seq<string>)
    ensures |r| == |cols|
  {
    seq(|cols|, j requires 0 <= j < |cols| => cols[j].header)
  }

  /** Under each header, as many dashes as the header has characters. */
  function Dashes(cols: seq<ColumnDef>): (r: seq<string>)
    ensures |r| == |cols|
  {
    seq(|cols|, j requires 0 <= j < |cols| => Repeat('-', |cols[j].header|))
  }

  function RowLines(cols: seq<ColumnDef>, rows: seq<seq<string>>, cell: (string, string) -> string): (r: seq<string>)
    requires Rectangular(cols, rows)
    ensures |r| == |rows|
  {
    seq(|rows|, i requires 0 <= i < |rows| && Rectangular(cols, rows) => Line(cols, rows[i], cell))
  }

  /** The row lines separated by newlines, or the red notice when there are none. */
  function Body(cols: seq<ColumnDef>, rows: seq<seq<string>>, cell: (string, string) -> string,
                red: string -> string): string
    requires Rectangular(cols, rows)
  {
    if rows == [] then red(NO_DATA) else Join(RowLines(cols, rows, cell), '\n')
  }

  /** The rendered table. */
  function Render(cols: seq<ColumnDef>, rows: seq<seq<string>>, cell: (string, string) -> string,
                  cyan: string -> string, red: string -> string): string
    requires Rectangular(cols, rows)
  {
    cyan(Line(cols, Headers(cols), cell)) + "\n" + cyan(Line(cols, Dashes(cols), cell)) + "\n"
    + Body(cols, rows, cell, red)
  }

  function RowSizeMessage(columns: int, values: int): string
  {
    "The table has " + DecimalString(columns) + " columns, but this row has " + DecimalString(values) + " values"
  }

  lemma {:induction false} JoinAvoids(xs: seq<string>, sep: char, c: char)
    requires c != sep && forall i :: 0 <= i < |xs| ==> c !in xs[i]
    ensures c !in Join(xs, sep)
    decreases |xs|
  {
    if |xs| > 1 {
      JoinAvoids(xs[1..], sep, c);
    }
  }

  /** A line holds no newline when no formatted cell does. */
  lemma LineAvoidsNewline(cols: seq<ColumnDef>, values: seq<string>, cell: (string, string) -> string)
    requires |values| == |cols|
    requires forall f, v :: '\n' !in cell(f, v)
    ensures '\n' !in Line(cols, values, cell)
  {
    var cs := Cells(cols, values, cell);
    forall i | 0 <= i < |cs|
      ensures '\n' !in cs[i]
    {
      assert cs[i] == cell(cols[i].formatString, values[i]);
    }
    JoinAvoids(cs, ' ', '\n');
    var j := Join(cs, ' ');
    var l := Line(cols, values, cell);
    assert l == j[..|l|];
  }

  /**
   * Split on newlines, a table is its header line, its line of dashes, and
   * then one line per row, or the notice alone when there are no rows:
   * rows are separated by newlines, with none after the last.
   */
  lemma RenderLines(cols: seq<ColumnDef>, rows: seq<seq<string>>, cell: (string, string) -> string,
                    cyan: string -> string, red: string -> string)
    requires Rectangular(cols, rows)
    requires forall f, v :: '\n' !in cell(f, v)
    requires forall t :: '\n' !in cyan(t)
    requires '\n' !in red(NO_DATA)
    ensures rows == [] ==>
      Split(Render(cols, rows, cell, cyan, red), '\n')
      == [cyan(Line(cols, Headers(cols), cell)), cyan(Line(cols, Dashes(cols), cell)), red(NO_DATA)]
    ensures rows != [] ==>
      Split(Render(cols, rows, cell, cyan, red), '\n')
      == [cyan(Line(cols, Headers(cols), cell)), cyan(Line(cols, Dashes(cols), cell))]
         + RowLines(cols, rows, cell)
  {
    var h := cyan(Line(cols, Headers(cols), cell));
    var l := cyan(Line(cols, Dashes(cols), cell));
    var lines := if rows == [] then [red(NO_DATA)] else RowLines(cols, rows, cell);
    forall i | 0 <= i < |lines|
      ensures '\n' !in lines[i]
    {
      if rows != [] {
        LineAvoidsNewline(cols, rows[i], cell);
      }
    }
    var all := [h, l] + lines;
    assert all[1..] == [l] + lines;
    assert ([l] + lines)[1..] == lines;
    assert Join(all, '\n') == h + "\n" + l + "\n" + Join(lines, '\n');
    assert Join(lines, '\n') == Body(cols, rows, cell, red);
    SplitJoin(all, '\n');
  }

  /** When the last row shows anything, the table does not end with a newline. */
  lemma NoTrailingNewline(cols: seq<ColumnDef>, rows: seq<seq<string>>, cell: (string, string) -> string,
                          cyan: string -> string, red: string -> string)
    requires Rectangular(cols, rows) && rows != []
    requires Line(cols, rows[|rows| - 1], cell) != ""
    ensures var r := Render(cols, rows, cell, cyan, red);
      |r| > 0 && r[|r| - 1] != '\n'
  {
    var lines := RowLines(cols, rows, cell);
    var last := lines[|lines| - 1];
    if |lines| > 1 {
      JoinSnoc(lines[..|lines| - 1], last, '\n');
      assert lines[..|lines| - 1] + [last] == lines;
    }
    var b := Body(cols, rows, cell, red);
    assert b[|b| - 1] == last[|last| - 1];
    assert !Blank(last[|last| - 1], 2);
  }

  class TabularOutput {
    var columnDefs: seq<ColumnDef>
    var rows: seq<seq<string>>

    /** Columns can only be defined before any row exists, so every row fits the columns. */
    ghost predicate Valid()
      reads this
    {
      Rectangular(columnDefs, rows)
    }

    constructor ()
      ensures Valid() && columnDefs == [] && rows == []
    {
      columnDefs := [];
      rows := [];
    }

    /** Adds a column; refused once the table has rows. */
    method DefineColumn(header: string, formatString: string) returns (err: Option<Exception>)
      requires Valid()
      modifies this
      ensures Valid() && rows == old(rows)
      ensures err.Some? <==> old(rows) != []
      ensures err.Some? ==>
        err.value == IllegalState("Table already has rows in it") && columnDefs == old(columnDefs)
      ensures err.None? ==> columnDefs == old(columnDefs) + [ColumnDef(header, formatString)]
    {
      if rows != [] {
        return Some(IllegalState("Table already has rows in it"));
      }
      columnDefs := columnDefs + [ColumnDef(header, formatString)];
      return None;
    }

    /** Adds a row; refused unless it has exactly one value per column. */
    method AddRow(values: seq<string>) returns (err: Option<Exception>)
      requires Valid()
      modifies this
      ensures Valid() && columnDefs == old(columnDefs)
      ensures err.Some? <==> |values| != |columnDefs|
      ensures err.Some? ==>
        err.value == IllegalArgument(RowSizeMessage(|columnDefs|, |values|)) && rows == old(rows)
      ensures err.None? ==> rows == old(rows) + [values]
    {
      if |values| != |columnDefs| {
        return Some(IllegalArgument(RowSizeMessage(|columnDefs|, |values|)));
      }
      rows := rows + [values];
      return None;
    }

    /** The cells of one line, separated by single spaces. */
    static method SpacedCells(cols: seq<ColumnDef>, values: seq<string>, cell: (string, string) -> string)
      returns (line: string)
      requires |values| == |cols|
      ensures line == Join(Cells(cols, values, cell), ' ')
    {
      ghost var cs := Cells(cols, values, cell);
      line := "";
      var j := 0;
      while j < |cols|
        invariant 0 <= j <= |cols|
        invariant line == Join(cs[..j], ' ')
      {
        if j != 0 {
          line := line + " ";
          JoinSnoc(cs[..j], cs[j], ' ');
        }
        line := line + cell(cols[j].formatString, values[j]);
        assert cs[..j + 1] == cs[..j] + [cs[j]];
        j := j + 1;
      }
      assert cs[..|cols|] == cs;
    }

    /** The row lines, separated by newlines, with none after the last. */
    static method JoinRows(cols: seq<ColumnDef>, rows: seq<seq<string>>, cell: (string, string) -> string)
      returns (b: string)
      requires Rectangular(cols, rows) && rows != []
      ensures b == Join(RowLines(cols, rows, cell), '\n')
    {
      ghost var lines := RowLines(cols, rows, cell);
      b := "";
      var n := |rows|;
      var i := 0;
      while i < n
        invariant 0 <= i <= n
        invariant i == 0 ==> b == ""
        invariant 0 < i ==> b == Join(lines[..i], '\n') + (if i < n then "\n" else "")
      {
        var r := SpacedCells(cols, rows[i], cell);
        var line := StripTrailing(r, 2);
        assert line == lines[i];
        assert lines[..i + 1] == lines[..i] + [line];
        if 0 < i {
          JoinSnoc(lines[..i], line, '\n');
        }
        b := b + line;
        if i < n - 1 {
          b := b + "\n";
        }
        i := i + 1;
      }
      assert lines[..n] == lines;
    }

    method ToString(cell: (string, string) -> string, cyan: string -> string, red: string -> string)
      returns (s: string)
      requires Valid()
      ensures s == Render(columnDefs, rows, cell, cyan, red)
    {
      var h := SpacedCells(columnDefs, Headers(columnDefs), cell);
      var l := SpacedCells(columnDefs, Dashes(columnDefs), cell);
      var prefix := cyan(StripTrailing(h, 2)) + "\n" + cyan(StripTrailing(l, 2)) + "\n";
      if rows == [] {
        return prefix + red(NO_DATA);
      }
      var b := JoinRows(columnDefs, rows, cell);
      return prefix + b;
    }
  }
}
