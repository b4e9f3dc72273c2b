/**
 * Weekly reviews (cmd/cmdReview.go): the record, its display line, and the
 * table the only descriptor with headers and a row function lists as.
 */
module Review {
  import opened Wrappers
  import opened StrConv
  import opened Scalars
  import Crud
  import Table

  /** models.Review. */
  datatype Review = Review(id: Option<I64>, task: I64, week: Option<I64>, summary: Option<string>)

  /** Format: the id and "task=%d week=%s summary=%s"; an absent week prints as "". */
  function Format(r: Review): (int, string) {
    (r.id.GetOr(0), "task=" + FormatInt(r.task) + " week=" + IntOrEmpty(r.week) + " summary=" + StringOrEmpty(r.summary))
  }

  const TableHeaders: seq<string> := ["id", "task", "week", "summary"]

  /** TableRow: the id, the task, the week ("" when absent) and the summary. */
  function TableRow(r: Review): seq<string> {
    [FormatInt(r.id.GetOr(0)), FormatInt(r.task), IntOrEmpty(r.week), StringOrEmpty(r.summary)]
  }

  function Descriptor(): Crud.CrudModel<Review> {
    Crud.CrudModel("review", Some(Format), Some(TableHeaders), Some(TableRow), None)
  }

  /** A row has one cell per header, and the id, task and week cells read back as the record's values. */
  lemma RowMatchesHeaders(r: Review)
    ensures |TableRow(r)| == |TableHeaders| == 4
    ensures ParseInt(TableRow(r)[0]) == Success(r.id.GetOr(0))
    ensures ParseInt(TableRow(r)[1]) == Success(r.task)
    ensures TableRow(r)[2] == "" <==> r.week.None?
    ensures r.week.Some? ==> ParseInt(TableRow(r)[2]) == Success(r.week.value)
  {
  }

  /** The display line is the row's cells after the id, each after its header's name. */
  lemma LineIsLabelledRow(r: Review)
    ensures Format(r).1 == (TableHeaders[1] + "=") + TableRow(r)[1] + (" " + TableHeaders[2] + "=") + TableRow(r)[2]
                           + (" " + TableHeaders[3] + "=") + TableRow(r)[3]
    ensures FormatInt(Format(r).0) == TableRow(r)[0]
  {
    var row := TableRow(r);
    assert TableHeaders[1] + "=" == "task=";
    assert " " + TableHeaders[2] + "=" == " week=";
    assert " " + TableHeaders[3] + "=" == " summary=";
    assert row[1] == FormatInt(r.task) && row[2] == IntOrEmpty(r.week) && row[3] == StringOrEmpty(r.summary);
  }

  /**
   * `review list` renders the table: |items| + 4 lines of one width, one
   * row per review in list order.
   */
  lemma ListsAsTable(items: seq<Review>)
    ensures Crud.TableMode(Descriptor())
    ensures Crud.ListOutput(Descriptor(), items) == Table.Rendered(TableHeaders, Crud.RowsOf(TableRow, items)) + "\n"
    ensures var rows := Crud.RowsOf(TableRow, items);
      |Crud.ListOutput(Descriptor(), items)| == (|items| + 4) * Table.LineWidth(Table.Widths(TableHeaders, rows)) + 1
  {
    Table.RenderedLength(TableHeaders, Crud.RowsOf(TableRow, items));
  }

  /** runReviewEdit's seeds for the task and the summary. */
  function TaskSeed(r: Review): string {
    FormatInt(r.task)
  }

  function SummarySeed(r: Review): string {
    StringOrEmpty(r.summary)
  }

  /**
   * The edit seeds are the texts the list shows in the task and summary
   * columns; an absent summary is seeded as "", like a present empty one.
   */
  lemma SeedsAreShownCells(r: Review)
    ensures TaskSeed(r) == TableRow(r)[1] && SummarySeed(r) == TableRow(r)[3]
    ensures SummarySeed(r) == "" <==> r.summary.None? || r.summary == Some("")
    ensures r.summary.Some? ==> SummarySeed(r) == r.summary.value
  {
  }

  /** The task seed is the task id's decimal text, which reads back as the task id. */
  lemma TaskSeedRoundTrip(r: Review)
    ensures IsInt64Text(TaskSeed(r)) && ParseInt(TaskSeed(r)) == Success(r.task)
  {
  }
}
