/**
 * RenderTable (cmd/utilCRUD.go): the boxed, left-aligned table the `list`
 * subcommand prints when an entity supplies headers and a row function.
 * A column is as wide as its longest cell (header included); every cell is
 * framed by one space on each side and right-padded with spaces; a row
 * shorter than the header line is padded with empty cells and the cells of
 * a longer row past the last header are dropped.
 */
module Table {
  import opened Text

  /** The cell of a row in column i: the row's text there, or the empty string past its end. */
  function Cell(cols: seq<string>, i: nat): string {
    if i < |cols| then cols[i] else ""
  }

  /** The width of column i: the length of its longest cell, the header included. */
  function ColWidth(header: string, rows: seq<seq<string>>, i: nat): nat {
    if rows == [] then |header|
    else
      var n := |rows| - 1;
      var m := ColWidth(header, rows[..n], i);
      var c := Cell(rows[n], i);
      if |c| > m then |c| else m
  }

  /** The widths of all columns; there are as many columns as headers. */
  function Widths(headers: seq<string>, rows: seq<seq<string>>): seq<nat> {
    seq(|headers|, k requires 0 <= k < |headers| => ColWidth(headers[k], rows, k))
  }

  /** Every cell of a row fits the widths (shorter cells are padded, never cut). */
  predicate Fits(w: seq<nat>, cols: seq<string>) {
    forall i :: 0 <= i < |w| ==> |Cell(cols, i)| <= w[i]
  }

  /** The sum of the widths. */
  function Sum(w: seq<nat>): nat {
    if w == [] then 0 else Sum(w[..|w| - 1]) + w[|w| - 1]
  }

  /** The length of every line of a table with these widths, the newline included. */
  function LineWidth(w: seq<nat>): nat {
    Sum(w) + 3 * |w| + 2
  }

  function DividerCells(w: seq<nat>): string {
    if w == [] then "" else DividerCells(w[..|w| - 1]) + Repeat('-', w[|w| - 1] + 2) + "+"
  }

  /** A divider line: "+", then per column width+2 dashes and "+". */
  function Divider(w: seq<nat>): string {
    "+" + DividerCells(w) + "\n"
  }

  function RowCells(w: seq<nat>, cols: seq<string>): string
    requires Fits(w, cols)
  {
    if w == [] then ""
    else
      var n := |w| - 1;
      var v := Cell(cols, n);
      RowCells(w[..n], cols) + " " + v + Repeat(' ', w[n] - |v|) + " " + "|"
  }

  /** A row line: "|", then per column a space, the cell, its padding, a space and "|". */
  function RowLine(w: seq<nat>, cols: seq<string>): string
    requires Fits(w, cols)
  {
    "|" + RowCells(w, cols) + "\n"
  }

  /** The lines of the table, top to bottom. */
  function TableLines(headers: seq<string>, rows: seq<seq<string>>): seq<string> {
    var w := Widths(headers, rows);
    WidthsFit(headers, rows);
    [Divider(w), RowLine(w, headers), Divider(w)]
    + seq(|rows|, j requires 0 <= j < |rows| => RowLine(w, rows[j]))
    + [Divider(w)]
  }

  /** The lines written one after the other. */
  function Join(lines: seq<string>): string {
    if lines == [] then "" else Join(lines[..|lines| - 1]) + lines[|lines| - 1]
  }

  /** What RenderTable returns. */
  function Rendered(headers: seq<string>, rows: seq<seq<string>>): string {
    Join(TableLines(headers, rows))
  }

  // ---------------------------------------------------------------- the method

  /** RenderTable: widths first, then the builder is filled line by line. */
  method RenderTable(headers: seq<string>, rows: seq<seq<string>>) returns (out: string)
    ensures out == Rendered(headers, rows)
  {
    var w := ColumnWidths(headers, rows);
    var ws := w[..];
    RenderedParts(headers, rows);
    var b := "";
    b := WriteDivider(b, ws);
    assert b == Divider(ws);
    b := WriteRow(b, ws, headers);
    b := WriteDivider(b, ws);
    b := WriteRows(b, ws, rows);
    b := WriteDivider(b, ws);
    out := b;
  }

  /** Appending in two steps is appending the two texts joined. */
  lemma AppendAssoc(a: string, x: string, y: string)
    ensures a + x + y == a + (x + y)
  {
  }

  /** The row lines of the table's body. */
  function BodyLines(w: seq<nat>, rows: seq<seq<string>>): seq<string>
    requires forall j :: 0 <= j < |rows| ==> Fits(w, rows[j])
  {
    seq(|rows|, j requires 0 <= j < |rows| => RowLine(w, rows[j]))
  }

  lemma BodyLinesSnoc(w: seq<nat>, rows: seq<seq<string>>, j: nat)
    requires forall j :: 0 <= j < |rows| ==> Fits(w, rows[j])
    requires j < |rows|
    ensures Join(BodyLines(w, rows[..j + 1])) == Join(BodyLines(w, rows[..j])) + RowLine(w, rows[j])
  {
    assert BodyLines(w, rows[..j + 1]) == BodyLines(w, rows[..j]) + [RowLine(w, rows[j])];
    JoinSnoc(BodyLines(w, rows[..j]), RowLine(w, rows[j]));
  }

  /** The loop of RenderTable over the rows. */
  method WriteRows(b: string, w: seq<nat>, rows: seq<seq<string>>) returns (b': string)
    requires forall j :: 0 <= j < |rows| ==> Fits(w, rows[j])
    ensures b' == b + Join(BodyLines(w, rows))
  {
    b' := b;
    var j := 0;
    while j < |rows|
      invariant 0 <= j <= |rows|
      invariant b' == b + Join(BodyLines(w, rows[..j]))
    {
      ghost var before := Join(BodyLines(w, rows[..j]));
      b' := WriteRow(b', w, rows[j]);
      AppendAssoc(b, before, RowLine(w, rows[j]));
      BodyLinesSnoc(w, rows, j);
      j := j + 1;
    }
    assert rows[..j] == rows;
  }

  /** The width pass of RenderTable: the header lengths, raised by every longer cell. */
  method ColumnWidths(headers: seq<string>, rows: seq<seq<string>>) returns (w: array<nat>)
    ensures fresh(w)
    ensures w[..] == Widths(headers, rows)
  {
    w := new nat[|headers|];
    var i := 0;
    while i < |headers|
      invariant 0 <= i <= |headers|
      invariant forall k :: 0 <= k < i ==> w[k] == ColWidth(headers[k], rows[..0], k)
    {
      w[i] := |headers[i]|;
      i := i + 1;
    }
    var j := 0;
    while j < |rows|
      invariant 0 <= j <= |rows|
      invariant forall k :: 0 <= k < |headers| ==> w[k] == ColWidth(headers[k], rows[..j], k)
    {
      var r := rows[j];
      i := 0;
      while i < |headers|
        invariant 0 <= i <= |headers|
        invariant forall k :: 0 <= k < i ==> w[k] == ColWidth(headers[k], rows[..j + 1], k)
        invariant forall k :: i <= k < |headers| ==> w[k] == ColWidth(headers[k], rows[..j], k)
      {
        ColWidthSnoc(headers[i], rows, j, i);
        if i < |r| && |r[i]| > w[i] {
          w[i] := |r[i]|;
        }
        i := i + 1;
      }
      j := j + 1;
    }
    assert rows[..|rows|] == rows;
    assert forall k :: 0 <= k < |headers| ==> w[..][k] == Widths(headers, rows)[k];
  }

  /** One more row: a column widens exactly when the row's cell there is longer. */
  lemma ColWidthSnoc(header: string, rows: seq<seq<string>>, j: nat, i: nat)
    requires j < |rows|
    ensures ColWidth(header, rows[..j + 1], i)
         == if |Cell(rows[j], i)| > ColWidth(header, rows[..j], i) then |Cell(rows[j], i)| else ColWidth(header, rows[..j], i)
  {
    assert rows[..j + 1][..j] == rows[..j];
  }

  /** The divider closure of RenderTable. */
  method WriteDivider(b: string, w: seq<nat>) returns (b': string)
    ensures b' == b + Divider(w)
  {
    b' := b + "+";
    var i := 0;
    while i < |w|
      invariant 0 <= i <= |w|
      invariant b' == b + "+" + DividerCells(w[..i])
    {
      assert w[..i + 1][..i] == w[..i];
      ghost var cells := DividerCells(w[..i]);
      b' := b' + Repeat('-', w[i] + 2);
      AppendAssoc(b + "+", cells, Repeat('-', w[i] + 2));
      b' := b' + "+";
      AppendAssoc(b + "+", cells + Repeat('-', w[i] + 2), "+");
      i := i + 1;
    }
    assert w[..i] == w;
    b' := b' + "\n";
    AppendAssoc(b + "+", DividerCells(w), "\n");
    AppendAssoc(b, "+", DividerCells(w) + "\n");
  }

  /** One more column of a row: its cell between spaces, padded to the width, and a bar. */
  lemma RowCellsSnoc(w: seq<nat>, cols: seq<string>, i: nat)
    requires Fits(w, cols) && i < |w|
    ensures Fits(w[..i], cols) && Fits(w[..i + 1], cols)
    ensures RowCells(w[..i + 1], cols)
         == RowCells(w[..i], cols) + " " + Cell(cols, i) + Repeat(' ', w[i] - |Cell(cols, i)|) + " " + "|"
  {
    assert w[..i + 1][..i] == w[..i];
  }

  /** The writeRow closure of RenderTable. */
  method WriteRow(b: string, w: seq<nat>, cols: seq<string>) returns (b': string)
    requires Fits(w, cols)
    ensures b' == b + RowLine(w, cols)
  {
    b' := b + "|";
    ghost var done := "";
    var i := 0;
    while i < |w|
      invariant 0 <= i <= |w|
      invariant Fits(w[..i], cols)
      invariant done == RowCells(w[..i], cols)
      invariant b' == b + "|" + done
    {
      RowCellsSnoc(w, cols, i);
      var val := "";
      if i < |cols| {
        val := cols[i];
      }
      var pad := Repeat(' ', w[i] - |val|);
      b' := b' + " ";
      AppendAssoc(b + "|", done, " ");
      done := done + " ";
      b' := b' + val;
      AppendAssoc(b + "|", done, val);
      done := done + val;
      b' := b' + pad;
      AppendAssoc(b + "|", done, pad);
      done := done + pad;
      b' := b' + " ";
      AppendAssoc(b + "|", done, " ");
      done := done + " ";
      b' := b' + "|";
      AppendAssoc(b + "|", done, "|");
      done := done + "|";
      i := i + 1;
    }
    assert w[..i] == w;
    b' := b' + "\n";
    AppendAssoc(b + "|", done, "\n");
    AppendAssoc(b, "|", done + "\n");
  }


  // ---------------------------------------------------------------- properties

  /** A column is exactly as wide as its longest cell: no cell is longer, and the header or some cell attains it. */
  lemma {:induction false} ColWidthIsMax(header: string, rows: seq<seq<string>>, i: nat)
    ensures ColWidth(header, rows, i) >= |header|
    ensures forall j :: 0 <= j < |rows| ==> |Cell(rows[j], i)| <= ColWidth(header, rows, i)
    ensures ColWidth(header, rows, i) == |header|
         || exists j :: 0 <= j < |rows| && ColWidth(header, rows, i) == |Cell(rows[j], i)|
  {
    if rows != [] {
      var n := |rows| - 1;
      ColWidthIsMax(header, rows[..n], i);
      assert forall j :: 0 <= j < n ==> rows[..n][j] == rows[j];
    }
  }

  /** The header line and every row fit the computed widths. */
  lemma WidthsFit(headers: seq<string>, rows: seq<seq<string>>)
    ensures Fits(Widths(headers, rows), headers)
    ensures forall j :: 0 <= j < |rows| ==> Fits(Widths(headers, rows), rows[j])
  {
    forall k | 0 <= k < |headers| {
      ColWidthIsMax(headers[k], rows, k);
    }
  }

  lemma JoinSnoc(lines: seq<string>, line: string)
    ensures Join(lines + [line]) == Join(lines) + line
  {
    assert (lines + [line])[..|lines|] == lines;
  }

  lemma {:induction false} JoinAppend(a: seq<string>, b: seq<string>)
    ensures Join(a + b) == Join(a) + Join(b)
  {
    if b != [] {
      var n := |b| - 1;
      assert (a + b)[..|a + b| - 1] == a + b[..n];
      JoinAppend(a, b[..n]);
    } else {
      assert a + b == a;
    }
  }

  /** The rendered table: divider, header line, divider, the row lines, divider. */
  lemma RenderedParts(headers: seq<string>, rows: seq<seq<string>>)
    ensures forall j :: 0 <= j < |rows| ==> Fits(Widths(headers, rows), rows[j])
    ensures Fits(Widths(headers, rows), headers)
    ensures Rendered(headers, rows)
         == Divider(Widths(headers, rows)) + RowLine(Widths(headers, rows), headers) + Divider(Widths(headers, rows))
            + Join(BodyLines(Widths(headers, rows), rows)) + Divider(Widths(headers, rows))
  {
    WidthsFit(headers, rows);
    var w := Widths(headers, rows);
    var d, r := Divider(w), RowLine(w, headers);
    var body := BodyLines(w, rows);
    assert TableLines(headers, rows) == [d, r, d] + body + [d];
    JoinOne(d);
    JoinOne(r);
    calc {
      Join([d, r, d] + body + [d]);
      { JoinAppend([d, r, d] + body, [d]); }
      Join([d, r, d] + body) + d;
      { JoinAppend([d, r, d], body); }
      Join([d, r, d]) + Join(body) + d;
      { assert [d, r, d] == [d] + [r] + [d];
        JoinAppend([d] + [r], [d]);
        JoinAppend([d], [r]); }
      d + r + d + Join(body) + d;
    }
  }

  lemma JoinOne(line: string)
    ensures Join([line]) == line
  {
    assert [line][..0] == [];
  }

  lemma {:induction false} DividerCellsLength(w: seq<nat>)
    ensures |DividerCells(w)| == Sum(w) + 3 * |w|
  {
    if w != [] {
      DividerCellsLength(w[..|w| - 1]);
    }
  }

  lemma {:induction false} RowCellsLength(w: seq<nat>, cols: seq<string>)
    requires Fits(w, cols)
    ensures |RowCells(w, cols)| == Sum(w) + 3 * |w|
  {
    if w != [] {
      RowCellsLength(w[..|w| - 1], cols);
    }
  }

  /** Every line of the table, divider or row, has the same length. */
  lemma LinesAligned(headers: seq<string>, rows: seq<seq<string>>)
    ensures |TableLines(headers, rows)| == |rows| + 4
    ensures forall k :: 0 <= k < |TableLines(headers, rows)| ==> |TableLines(headers, rows)[k]| == LineWidth(Widths(headers, rows))
  {
    var w := Widths(headers, rows);
    var lines := TableLines(headers, rows);
    WidthsFit(headers, rows);
    DividerCellsLength(w);
    RowCellsLength(w, headers);
    forall k | 0 <= k < |lines|
      ensures |lines[k]| == LineWidth(w)
    {
      if 3 <= k < 3 + |rows| {
        assert lines[k] == RowLine(w, rows[k - 3]);
        RowCellsLength(w, rows[k - 3]);
      }
    }
  }

  lemma {:induction false} JoinLength(lines: seq<string>, width: nat)
    requires forall k :: 0 <= k < |lines| ==> |lines[k]| == width
    ensures |Join(lines)| == |lines| * width
  {
    if lines != [] {
      var n := |lines| - 1;
      assert forall k :: 0 <= k < n ==> lines[..n][k] == lines[k];
      JoinLength(lines[..n], width);
      calc {
        |Join(lines)|;
        |Join(lines[..n])| + |lines[n]|;
        n * width + width;
      }
    }
  }

  /** The rendered table is |rows| + 4 lines of one common width. */
  lemma RenderedLength(headers: seq<string>, rows: seq<seq<string>>)
    ensures |Rendered(headers, rows)| == (|rows| + 4) * LineWidth(Widths(headers, rows))
  {
    LinesAligned(headers, rows);
    JoinLength(TableLines(headers, rows), LineWidth(Widths(headers, rows)));
  }

  /** Where column i's text starts in a row line: past "|", the earlier columns and one space. */
  function CellStart(w: seq<nat>, i: nat): nat
    requires i <= |w|
  {
    Sum(w[..i]) + 3 * i + 2
  }

  lemma {:induction false} RowCellsPrefix(w: seq<nat>, cols: seq<string>, n: nat)
    requires Fits(w, cols) && n <= |w|
    ensures Fits(w[..n], cols)
    ensures RowCells(w[..n], cols) <= RowCells(w, cols)
  {
    if n < |w| {
      var m := |w| - 1;
      assert w[..m][..n] == w[..n];
      RowCellsPrefix(w[..m], cols, n);
    } else {
      assert w[..n] == w;
    }
  }

  /**
   * A row line shows the cell of column i left-aligned at CellStart, followed
   * by spaces up to the column's width.
   */
  lemma CellShown(w: seq<nat>, cols: seq<string>, i: nat)
    requires Fits(w, cols) && i < |w|
    ensures CellStart(w, i) + w[i] < |RowLine(w, cols)|
    ensures RowLine(w, cols)[CellStart(w, i)..CellStart(w, i) + |Cell(cols, i)|] == Cell(cols, i)
    ensures forall p :: CellStart(w, i) + |Cell(cols, i)| <= p < CellStart(w, i) + w[i] ==> RowLine(w, cols)[p] == ' '
  {
    var v := Cell(cols, i);
    var block := CellBlock(w, cols, i);
    var line := RowLine(w, cols);
    var off := |RowCells(w[..i], cols)| + 1;
    assert CellStart(w, i) == 1 + off;
    forall m | 0 <= m < |v|
      ensures line[CellStart(w, i) + m] == v[m]
    {
      assert line[CellStart(w, i) + m] == block[off + m];
    }
    forall p | CellStart(w, i) + |v| <= p < CellStart(w, i) + w[i]
      ensures line[p] == ' '
    {
      assert line[p] == block[p - 1];
    }
  }

  /** The first i+1 columns of a row line, as they sit right after its leading "|". */
  lemma CellBlock(w: seq<nat>, cols: seq<string>, i: nat) returns (block: string)
    requires Fits(w, cols) && i < |w|
    ensures Fits(w[..i], cols)
    ensures |RowCells(w[..i], cols)| == Sum(w[..i]) + 3 * i
    ensures block == RowCells(w[..i], cols) + " " + Cell(cols, i) + Repeat(' ', w[i] - |Cell(cols, i)|) + " " + "|"
    ensures 1 + |block| <= |RowLine(w, cols)| && RowLine(w, cols)[1..1 + |block|] == block
  {
    RowCellsPrefix(w, cols, i + 1);
    var pre := w[..i + 1];
    assert pre[..i] == w[..i];
    RowCellsLength(w[..i], cols);
    block := RowCells(pre, cols);
  }

  /** The cells of a row past the last header do not change its line. */
  lemma {:induction false} ExtraCellsIgnored(w: seq<nat>, cols: seq<string>)
    requires Fits(w, cols) && |cols| >= |w|
    ensures Fits(w, cols[..|w|])
    ensures RowCells(w, cols) == RowCells(w, cols[..|w|])
  {
    if w != [] {
      var n := |w| - 1;
      assert cols[..|w|][..n] == cols[..n];
      ExtraCellsIgnored(w[..n], cols);
      ExtraCellsIgnored(w[..n], cols[..|w|]);
    }
  }
}
