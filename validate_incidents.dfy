/** What a validation run does to the loaded table, as functions of the
    loaded rows: each processed row's `status` cell is written with its
    validation outcome, then every row's `Updated_Ts_LastRun` cell with one
    timestamp. The clock is a parameter: `clock(j)` is the time shown by the
    `j`-th reading (0-based) in the run. */
module ValidationRun {
  import opened Common
  import opened Text
  import opened ReTemplate
  import opened ResponseChecks
  import opened UrlValidator
  import opened ConfluenceRows

  /** The network and the calendar the URL validator works against. */
  datatype Net = Net(fetch: Fetch, today: Date, parse: DateParser)

  /** What a row's validation gives: status, details, and whether it counts
      as a success. */
  datatype RowOutcome = RowOutcome(status: string, details: string, valid: bool)

  /** A row with no truthy `url` or `type` is skipped. */
  predicate Complete(incident: map<string, string>) {
    "url" in incident && incident["url"] != [] && "type" in incident && incident["type"] != []
  }

  /** The body of the loop for one row: skip, validate, or report the
      exception the validator raised. */
  function Validate(incident: map<string, string>, net: Net): (o: RowOutcome)
    ensures !Complete(incident) ==> o == RowOutcome("Skipped", "Missing URL or type", false)
    ensures o.valid ==>
      (Complete(incident)
       && ValidateUrl(incident["url"], incident["type"], net.fetch, net.today, net.parse).Ok?
       && ValidateUrl(incident["url"], incident["type"], net.fetch, net.today, net.parse).value.valid)
  {
    if !Complete(incident) then RowOutcome("Skipped", "Missing URL or type", false)
    else match ValidateUrl(incident["url"], incident["type"], net.fetch, net.today, net.parse)
      case Err(e) => RowOutcome("Error", "Validation failed: " + e.message, false)
      case Ok(c) => RowOutcome(c.status, c.details, c.valid)
  }

  /** An exception from the validator is reported on the row and never
      counts as a success. */
  lemma RaisedIsError(incident: map<string, string>, net: Net)
    requires Complete(incident)
    requires ValidateUrl(incident["url"], incident["type"], net.fetch, net.today, net.parse).Err?
    ensures var e := ValidateUrl(incident["url"], incident["type"], net.fetch, net.today, net.parse).error;
      Validate(incident, net) == RowOutcome("Error", "Validation failed: " + e.message, false)
  {
  }

  /** The per-row step as a value: the loop below is stated for any
      check, and the run uses `Checking(net)`. */
  type Checker = map<string, string> -> RowOutcome

  function Checking(net: Net): Checker {
    incident => Validate(incident, net)
  }

  // ---------------------------------------------------------------------
  // How far the loop goes

  /** `max_incidents` as the loop reads it: a non-zero number. */
  predicate Limited(maxIncidents: Option<int>) {
    maxIncidents.Some? && maxIncidents.value != 0
  }

  /** The loop breaks before the row at 0-based index `i`. */
  predicate Breaks(maxIncidents: Option<int>, i: int) {
    Limited(maxIncidents) && i + 1 > maxIncidents.value
  }

  /** How many of `n` rows the loop processes: up to the first index where
      it breaks. */
  function ProcessedCount(n: nat, maxIncidents: Option<int>): (p: nat)
    ensures p <= n
    ensures p > 0 ==> !Breaks(maxIncidents, p - 1)
    ensures p < n ==> Breaks(maxIncidents, p)
  {
    if !Limited(maxIncidents) then n
    else if maxIncidents.value < 0 then 0
    else if maxIncidents.value < n then maxIncidents.value
    else n
  }

  /** The loop stops at the first index where it breaks, or at the end. */
  lemma StopsAtProcessedCount(n: nat, maxIncidents: Option<int>, i: nat)
    requires i <= n && (i == 0 || !Breaks(maxIncidents, i - 1))
    requires i == n || Breaks(maxIncidents, i)
    ensures i == ProcessedCount(n, maxIncidents)
  {
  }

  /** Without a limit, or with 0, every row is processed; a negative limit
      processes none. */
  lemma ProcessedCountCases(n: nat, maxIncidents: Option<int>)
    ensures !Limited(maxIncidents) ==> ProcessedCount(n, maxIncidents) == n
    ensures Limited(maxIncidents) && maxIncidents.value < 0 ==> ProcessedCount(n, maxIncidents) == 0
    ensures Limited(maxIncidents) && maxIncidents.value > 0 ==>
      ProcessedCount(n, maxIncidents) == if maxIncidents.value < n then maxIncidents.value else n
  {
  }

  // ---------------------------------------------------------------------
  // Writing a column row by row

  /** `_update_incident_status`'s text: the status, a space when the row
      exists, the timestamp in parentheses, and the details when there are
      any. */
  function StatusLine(status: string, ts: string, details: string, rowExists: bool): string {
    (if rowExists then status + " " else status) + " (" + ts + ")" + (if details != "" then " - " + details else "")
  }

  /** For an existing row the status and the timestamp are two spaces
      apart. */
  lemma StatusLineTwoSpaces(status: string, ts: string, details: string)
    ensures StatusLine(status, ts, details, true) == status + "  (" + ts + ")" + (if details == "" then "" else " - " + details)
  {
  }

  /** The rows after `update_cell(r, name, v)`, kept as they were when it
      fails. */
  function UpdateOrKeep(rows: seq<Row>, m: seq<string>, r: int, name: string, v: string): (res: seq<Row>)
    ensures |res| == |rows|
  {
    if 0 <= r < |rows| then rows[r := RowAfter(rows[r], m, name, v)] else rows
  }

  /** The rows after `update_cell(k, name, vals[k])` for `k` from 0 to
      `n - 1`, each failed update leaving them as they were. */
  function Sweep(rows: seq<Row>, m: seq<string>, name: string, vals: seq<string>, n: nat): (res: seq<Row>)
    requires n <= |vals|
    ensures |res| == |rows|
  {
    if n == 0 then rows
    else UpdateOrKeep(Sweep(rows, m, name, vals, n - 1), m, n - 1, name, vals[n - 1])
  }

  /** What `update_cell` makes of the row it writes: the column's cell gets
      `v` and so does the column's lower-cased key in the row's data; a row
      without a cell for the column, a column not in the mapping, or a
      value on which the paragraph template raises leaves it as it was. */
  function RowAfter(row: Row, m: seq<string>, name: string, v: string): Row {
    match ColumnIndex(m, name)
    case None => row
    case Some(col) =>
      if col !in row.cells then row
      else match NewCellContent(row.cells[col], v)
        case None => row
        case Some(content) => row.(cells := row.cells[col := content], data := row.data[Lower(name) := v])
  }

  /** An update of row `r` depends on that row alone and leaves every other
      row as it was. */
  lemma UpdateOrKeepAt(rows: seq<Row>, m: seq<string>, r: int, name: string, v: string, k: nat)
    requires k < |rows|
    ensures UpdateOrKeep(rows, m, r, name, v)[k] == if k == r then RowAfter(rows[k], m, name, v) else rows[k]
  {
  }

  /** `update_cell` either succeeds with these rows or fails and leaves the
      rows as they were. */
  lemma UpdateOrKeepIsUpdate(rows: seq<Row>, m: seq<string>, r: int, name: string, v: string)
    ensures Update(rows, m, r, name, v).Some? ==> Update(rows, m, r, name, v).value == UpdateOrKeep(rows, m, r, name, v)
    ensures Update(rows, m, r, name, v).None? ==> UpdateOrKeep(rows, m, r, name, v) == rows
  {
    if 0 <= r < |rows| && Update(rows, m, r, name, v).None? {
      assert RowAfter(rows[r], m, name, v) == rows[r];
      assert rows[r := rows[r]] == rows;
    }
  }

  /** A row with a cell for the column, whose new content the template
      accepts, ends with `v` under the column's lower-cased name and every
      other entry of its data and cells kept; any other row is unchanged.
      A value without backslashes is always accepted. */
  lemma RowAfterCell(row: Row, m: seq<string>, name: string, v: string)
    ensures var c := ColumnIndex(m, name);
      var after := RowAfter(row, m, name, v);
      && (c.Some? && c.value in row.cells && NewCellContent(row.cells[c.value], v).Some? ==>
            && Lower(name) in after.data && after.data[Lower(name)] == v
            && after.data.Keys == row.data.Keys + {Lower(name)}
            && after.cells.Keys == row.cells.Keys
            && (forall key :: key in row.data && key != Lower(name) ==> after.data[key] == row.data[key])
            && (forall col :: col in row.cells && col != c.value ==> after.cells[col] == row.cells[col]))
      && (c.None? || c.value !in row.cells || NewCellContent(row.cells[c.value], v).None? ==> after == row)
      && (c.Some? && c.value in row.cells && NoBackslash(v) ==> after.data[Lower(name)] == v)
  {
  }

  /** Row `k` is written by the `k`-th update alone: it ends as that one
      update makes it, or as it was loaded when `k` was not reached. */
  lemma {:induction false} SweepRow(rows: seq<Row>, m: seq<string>, name: string, vals: seq<string>, n: nat, k: nat)
    requires n <= |vals| && k < |rows|
    ensures Sweep(rows, m, name, vals, n)[k] == if k < n then RowAfter(rows[k], m, name, vals[k]) else rows[k]
  {
    if n > 0 {
      SweepRow(rows, m, name, vals, n - 1, k);
      UpdateOrKeepAt(Sweep(rows, m, name, vals, n - 1), m, n - 1, name, vals[n - 1], k);
    }
  }

  // ---------------------------------------------------------------------
  // The run

  /** The text written into row `k`'s status cell, for tables of
      `rowCount` rows. */
  function StatusLines(incidents: seq<map<string, string>>, check: Checker, clock: nat -> string, rowCount: nat): (r: seq<string>)
    ensures |r| == |incidents|
  {
    seq(|incidents|, k requires 0 <= k < |incidents| =>
      StatusLine(check(incidents[k]).status, clock(k), check(incidents[k]).details, k < rowCount))
  }

  /** Whether each row validated successfully. */
  function Verdicts(incidents: seq<map<string, string>>, check: Checker): (r: seq<bool>)
    ensures |r| == |incidents|
  {
    seq(|incidents|, k requires 0 <= k < |incidents| => check(incidents[k]).valid)
  }

  /** Number of `true`s among the first `n` verdicts. */
  function CountTrue(bs: seq<bool>, n: nat): (c: nat)
    requires n <= |bs|
    ensures c <= n
  {
    if n == 0 then 0 else CountTrue(bs, n - 1) + (if bs[n - 1] then 1 else 0)
  }

  /** The count is the number of positions holding `true`. */
  lemma {:induction false} CountTrueIsCardinality(bs: seq<bool>, n: nat)
    requires n <= |bs|
    ensures CountTrue(bs, n) == |set k | 0 <= k < n && bs[k]|
  {
    if n > 0 {
      CountTrueIsCardinality(bs, n - 1);
      var before := set k | 0 <= k < n - 1 && bs[k];
      var now := set k | 0 <= k < n && bs[k];
      if bs[n - 1] {
        assert now == before + {n - 1};
      } else {
        assert now == before;
      }
    }
  }

  /** The number of successes is the number of processed rows whose
      validation came back valid, and every one of them had a URL and a
      type. */
  lemma SuccessesCounted(incidents: seq<map<string, string>>, net: Net, p: nat)
    requires p <= |incidents|
    ensures CountTrue(Verdicts(incidents, Checking(net)), p) == |set k | 0 <= k < p && Validate(incidents[k], net).valid|
    ensures forall k :: 0 <= k < p && Verdicts(incidents, Checking(net))[k] ==> Complete(incidents[k])
  {
    var verdicts := Verdicts(incidents, Checking(net));
    CountTrueIsCardinality(verdicts, p);
    assert (set k | 0 <= k < p && verdicts[k]) == (set k | 0 <= k < p && Validate(incidents[k], net).valid);
  }

  /** `n` copies of the timestamp `ts`. */
  function Stamps(ts: string, n: nat): (r: seq<string>)
    ensures |r| == n && forall i :: 0 <= i < n ==> r[i] == ts
  {
    seq(n, _ => ts)
  }

  /** The column `_update_incident_status` writes. */
  const StatusColumn: string := "status"

  /** The column the run stamps on every row. */
  const StampColumn: string := "Updated_Ts_LastRun"

  /** The whole run on loaded rows: statuses for the processed rows, then
      the timestamp read after them on every row. */
  function RunRows(rows: seq<Row>, m: seq<string>, maxIncidents: Option<int>, check: Checker, clock: nat -> string): (res: seq<Row>)
    ensures |res| == |rows|
  {
    var p := ProcessedCount(|rows|, maxIncidents);
    var statuses := Sweep(rows, m, StatusColumn, StatusLines(DataOf(rows), check, clock, |rows|), p);
    Sweep(statuses, m, StampColumn, Stamps(clock(p), |rows|), |rows|)
  }

  /** Two sweeps over different columns `a` then `b`, for any texts: a
      reached row with a cell for `a` that accepts its text ends with its
      own `a` text, and one that refuses it keeps its `a` entry; a row
      with a cell for `b` that accepts its `b` text ends with it; a row the
      first sweep did not reach keeps its `a` entry. */
  lemma TwoSweeps(rows: seq<Row>, m: seq<string>, a: string, lines: seq<string>, p: nat, b: string, stamps: seq<string>, k: nat)
    requires p <= |lines| && |stamps| == |rows| && k < |rows| && Lower(a) != Lower(b)
    ensures var colA := ColumnIndex(m, a);
      var colB := ColumnIndex(m, b);
      var after := Sweep(Sweep(rows, m, a, lines, p), m, b, stamps, |rows|)[k];
      var writtenA := k < p && colA.Some? && colA.value in rows[k].cells
                      && NewCellContent(rows[k].cells[colA.value], lines[k]).Some?;
      && (writtenA ==> Lower(a) in after.data && after.data[Lower(a)] == lines[k])
      && (!writtenA && Lower(a) in rows[k].data ==>
            Lower(a) in after.data && after.data[Lower(a)] == rows[k].data[Lower(a)])
      && (colB.Some? && colB.value in rows[k].cells && NewCellContent(rows[k].cells[colB.value], stamps[k]).Some? ==>
            Lower(b) in after.data && after.data[Lower(b)] == stamps[k])
  {
    var statuses := Sweep(rows, m, a, lines, p);
    SweepRow(rows, m, a, lines, p, k);
    if k < p {
      RowAfterCell(rows[k], m, a, lines[k]);
    }
    var colA := ColumnIndex(m, a);
    var colB := ColumnIndex(m, b);
    if colA.Some? && colB.Some? {
      assert colA.value != colB.value;
    }
    SweepRow(statuses, m, b, stamps, |rows|, k);
    RowAfterCell(statuses[k], m, b, stamps[k]);
  }

  /** The lower-cased column names differ, and the status column is
      already lower-case. */
  lemma RunColumnsDistinct()
    ensures Lower(StatusColumn) == "status" && Lower(StampColumn) != "status"
  {
    assert |Lower(StampColumn)| == 18;
  }

  /** After a run, a processed row with a status cell shows its outcome
      with its own clock reading, unless that line makes the paragraph
      template raise, in which case it keeps its status text; a row with a
      `Updated_Ts_LastRun` cell shows, under the lower-cased stamp column,
      the timestamp read once the loop was over, when the template accepts
      it.  Lines and stamps without backslashes are always accepted. */
  lemma RunRowWritten(rows: seq<Row>, m: seq<string>, maxIncidents: Option<int>, net: Net, clock: nat -> string, k: nat)
    requires k < ProcessedCount(|rows|, maxIncidents)
    ensures var o := Validate(rows[k].data, net);
      var line := o.status + "  (" + clock(k) + ")" + (if o.details == "" then "" else " - " + o.details);
      var stamp := clock(ProcessedCount(|rows|, maxIncidents));
      var s := ColumnIndex(m, StatusColumn);
      var t := ColumnIndex(m, StampColumn);
      var after := RunRows(rows, m, maxIncidents, Checking(net), clock)[k];
      && (s.Some? && s.value in rows[k].cells && NewCellContent(rows[k].cells[s.value], line).Some? ==>
            "status" in after.data && after.data["status"] == line)
      && (s.Some? && s.value in rows[k].cells && NewCellContent(rows[k].cells[s.value], line).None?
          && "status" in rows[k].data ==>
            "status" in after.data && after.data["status"] == rows[k].data["status"])
      && (t.Some? && t.value in rows[k].cells && NewCellContent(rows[k].cells[t.value], stamp).Some? ==>
            Lower(StampColumn) in after.data && after.data[Lower(StampColumn)] == stamp)
      && (s.Some? && s.value in rows[k].cells && NoBackslash(line) ==> after.data["status"] == line)
  {
    var p := ProcessedCount(|rows|, maxIncidents);
    var lines := StatusLines(DataOf(rows), Checking(net), clock, |rows|);
    RunColumnsDistinct();
    TwoSweeps(rows, m, StatusColumn, lines, p, StampColumn, Stamps(clock(p), |rows|), k);
    var o := Validate(rows[k].data, net);
    assert lines[k] == StatusLine(o.status, clock(k), o.details, true);
    StatusLineTwoSpaces(o.status, clock(k), o.details);
  }

  /** Rows the loop did not reach keep their status text. */
  lemma RunRowUnreached(rows: seq<Row>, m: seq<string>, maxIncidents: Option<int>, net: Net, clock: nat -> string, k: nat)
    requires ProcessedCount(|rows|, maxIncidents) <= k < |rows|
    requires "status" in rows[k].data
    ensures var after := RunRows(rows, m, maxIncidents, Checking(net), clock)[k];
      "status" in after.data && after.data["status"] == rows[k].data["status"]
  {
    var p := ProcessedCount(|rows|, maxIncidents);
    RunColumnsDistinct();
    TwoSweeps(rows, m, StatusColumn, StatusLines(DataOf(rows), Checking(net), clock, |rows|), p, StampColumn, Stamps(clock(p), |rows|), k);
  }
}

/** The `IncidentValidator` object: a page id and the table it validates. */
module IncidentValidation {
  import opened Common
  import opened Text
  import opened ConfluenceRows
  import opened ConfluenceTable
  import opened ValidationRun

  class IncidentValidator {
    const pageId: string
    const table: Table

    constructor (pageId: string)
      ensures this.pageId == pageId && fresh(table) && table.pageId == pageId
      ensures table.pageContent == "" && table.columnMapping == [] && table.tableData == []
    {
      this.pageId := pageId;
      table := new Table(pageId);
    }

    /** `_update_incident_status(row_index, status, details)` with the clock
        reading `ts`. */
    method UpdateIncidentStatus(rowIndex: int, status: string, details: string, ts: string) returns (ok: bool)
      modifies table
      ensures table.pageId == old(table.pageId) && table.pageContent == old(table.pageContent)
      ensures table.columnMapping == old(table.columnMapping)
      ensures var line := StatusLine(status, ts, details, 0 <= rowIndex < |old(table.tableData)|);
        && ok == Update(old(table.tableData), table.columnMapping, rowIndex, StatusColumn, line).Some?
        && table.tableData == UpdateOrKeep(old(table.tableData), table.columnMapping, rowIndex, StatusColumn, line)
    {
      var text := status;
      if 0 <= rowIndex < |table.tableData| {
        text := text + " ";
      }
      var withDetails := text + " (" + ts + ")";
      if details != "" {
        withDetails := withDetails + " - " + details;
      }
      assert withDetails == StatusLine(status, ts, details, 0 <= rowIndex < |table.tableData|);
      UpdateOrKeepIsUpdate(table.tableData, table.columnMapping, rowIndex, StatusColumn, withDetails);
      ok := table.UpdateCell(rowIndex, StatusColumn, withDetails);
    }

    /** One turn of the validation loop: checks the row's incident with
        `check` and writes its status with the clock reading `ts`. */
    method ProcessRow(rowIndex: nat, incident: map<string, string>, check: Checker, ts: string) returns (valid: bool)
      modifies table
      ensures table.pageId == old(table.pageId) && table.pageContent == old(table.pageContent)
      ensures table.columnMapping == old(table.columnMapping)
      ensures valid == check(incident).valid
      ensures var o := check(incident);
        table.tableData == UpdateOrKeep(old(table.tableData), table.columnMapping, rowIndex, StatusColumn,
                                        StatusLine(o.status, ts, o.details, rowIndex < |old(table.tableData)|))
    {
      var outcome := check(incident);
      var _ := UpdateIncidentStatus(rowIndex, outcome.status, outcome.details, ts);
      valid := outcome.valid;
    }

    /** One turn of the validation loop, as the step from the first `i`
        rows to the first `i + 1`: row `i` is validated, its status written
        and the success count raised when it passed. */
    method Visit(incidents: seq<map<string, string>>, check: Checker, clock: nat -> string, i: nat,
                 ghost lines: seq<string>, ghost verdicts: seq<bool>, ghost start: seq<Row>, count: nat)
      returns (count': nat)
      requires lines == StatusLines(incidents, check, clock, |incidents|) && verdicts == Verdicts(incidents, check)
      requires i < |incidents| == |table.tableData|
      requires table.tableData == Sweep(start, table.columnMapping, StatusColumn, lines, i)
      requires count == CountTrue(verdicts, i)
      modifies table
      ensures table.pageId == old(table.pageId) && table.pageContent == old(table.pageContent)
      ensures table.columnMapping == old(table.columnMapping)
      ensures |table.tableData| == |incidents|
      ensures table.tableData == Sweep(start, table.columnMapping, StatusColumn, lines, i + 1)
      ensures count' == CountTrue(verdicts, i + 1)
    {
      var valid := ProcessRow(i, incidents[i], check, clock(i));
      assert lines[i] == StatusLine(check(incidents[i]).status, clock(i), check(incidents[i]).details, i < |incidents|);
      count' := count;
      if valid {
        count' := count + 1;
      }
    }

    /** The validation loop over the loaded rows: validates the rows up to
        the limit and writes each one's status. */
    method ValidateRows(incidents: seq<map<string, string>>, maxIncidents: Option<int>, check: Checker, clock: nat -> string)
      returns (processed: nat, successCount: nat)
      requires |incidents| == |table.tableData|
      modifies table
      ensures table.pageId == old(table.pageId) && table.pageContent == old(table.pageContent)
      ensures table.columnMapping == old(table.columnMapping)
      ensures processed == ProcessedCount(|incidents|, maxIncidents)
      ensures table.tableData == Sweep(old(table.tableData), table.columnMapping, StatusColumn,
                                       StatusLines(incidents, check, clock, |incidents|), processed)
      ensures successCount == CountTrue(Verdicts(incidents, check), processed)
    {
      ghost var lines := StatusLines(incidents, check, clock, |incidents|);
      ghost var verdicts := Verdicts(incidents, check);
      ghost var start := table.tableData;
      ghost var p := ProcessedCount(|incidents|, maxIncidents);
      successCount := 0;
      var i := 0;
      while i < |incidents| && !Breaks(maxIncidents, i)
        invariant i <= p
        invariant table.pageId == old(table.pageId) && table.pageContent == old(table.pageContent)
        invariant table.columnMapping == old(table.columnMapping)
        invariant |table.tableData| == |incidents|
        invariant table.tableData == Sweep(start, table.columnMapping, StatusColumn, lines, i)
        invariant successCount == CountTrue(verdicts, i)
      {
        successCount := Visit(incidents, check, clock, i, lines, verdicts, start, successCount);
        i := i + 1;
      }
      processed := i;
    }

    /** The timestamp loop: `update_cell(i, 'Updated_Ts_LastRun', stamp)` on
        every row. */
    method StampRows(stamp: string, column: string)
      modifies table
      ensures table.pageId == old(table.pageId) && table.pageContent == old(table.pageContent)
      ensures table.columnMapping == old(table.columnMapping)
      ensures table.tableData == Sweep(old(table.tableData), table.columnMapping, column,
                                       Stamps(stamp, |old(table.tableData)|), |old(table.tableData)|)
    {
      ghost var stamps := Stamps(stamp, |table.tableData|);
      var k := 0;
      while k < |table.tableData|
        invariant 0 <= k <= |table.tableData| == |old(table.tableData)| == |stamps|
        invariant table.pageId == old(table.pageId) && table.pageContent == old(table.pageContent)
        invariant table.columnMapping == old(table.columnMapping)
        invariant table.tableData == Sweep(old(table.tableData), table.columnMapping, column, stamps, k)
      {
        var _ := table.UpdateCell(k, column, stamp);
        k := k + 1;
      }
    }

    /** `run_validation(max_incidents)`. `page` is the fetched page body and
        its split table, or `None` when fetching it raised; `clock` gives
        successive clock readings; `write` is the page update. Besides the
        answer, the model returns the number of successes and the body
        written, if any: none when the regenerated table raises as an
        `re.sub` template. */
    method RunValidation(page: Option<(string, TableParse)>, maxIncidents: Option<int>, net: Net,
                         clock: nat -> string, write: string -> PageWrite)
      returns (ok: bool, successCount: nat, written: Option<string>)
      modifies table
      ensures table.pageId == old(table.pageId)
      ensures page.None? ==>
        (!ok && written.None? && table.pageContent == old(table.pageContent)
         && table.columnMapping == old(table.columnMapping) && table.tableData == old(table.tableData))
      ensures page.Some? && !page.value.1.Parsed? ==>
        (!ok && written.None? && table.pageContent == page.value.0
         && table.columnMapping == old(table.columnMapping) && table.tableData == old(table.tableData))
      ensures page.Some? && page.value.1.Parsed? ==>
        var m := ColumnNames(page.value.1.headerCells);
        var rows := TableRows(m, page.value.1.rowCells);
        && table.pageContent == page.value.0 && table.columnMapping == m
        && (rows == [] ==> !ok && written.None? && table.tableData == rows)
        && (rows != [] ==>
              && table.tableData == RunRows(rows, m, maxIncidents, Checking(net), clock)
              && successCount == CountTrue(Verdicts(DataOf(rows), Checking(net)), ProcessedCount(|rows|, maxIncidents))
              && written == ReplaceFirstTable(page.value.0, TableHtml(m, table.tableData))
              && (ok <==> written.Some? && write(written.value) == WriteReturned))
    {
      successCount := 0;
      written := None;
      if page.None? {
        return false, successCount, written;
      }
      var incidents := table.LoadTable(page.value.0, page.value.1);
      if incidents == [] {
        return false, successCount, written;
      }
      var processed;
      processed, successCount := ValidateRows(incidents, maxIncidents, Checking(net), clock);
      StampRows(clock(processed), StampColumn);
      ok, written := table.SaveChanges(write);
    }
  }
}
