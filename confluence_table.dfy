/** The status table kept on a Confluence page (confluence_table.py).

    `load_table` turns the first `<table>` of the page into rows keyed by
    the normalised header names, `update_cell` rewrites one cell of the
    local copy, and `save_changes` regenerates the whole table as HTML and
    splices it over the first table of the page.  Finding the table, its
    `<tr>` rows and their `<th>`/`<td>` cells is done by regular
    expressions in the source; here that split arrives ready-made as a
    `TableParse`.  The Confluence client is an oracle. */
module ConfluenceRows {
  import opened Common
  import opened Text
  import opened ReTemplate

  /** What the page's storage HTML yields: no table, a table without any
      `<tr>`, or the `<th>` contents of the first row and the `<td>`
      contents of every row (the header row included, at position 0). */
  datatype TableParse =
    | NoTable
    | NoHeaderRow
    | Parsed(headerCells: seq<string>, rowCells: seq<seq<string>>)

  /** One entry of `table_data`: its position among the `<tr>` rows, the
      raw cells, the cleaned text per column name (`data`) and the raw
      content per mapped column index (the `cell_{i}` keys). */
  datatype Row = Row(rowIndex: nat, originalCells: seq<string>, data: map<string, string>, cells: map<nat, string>)

  /** What the Confluence client answers when the page is written back. */
  datatype PageWrite = WriteRaised | WriteReturnedNone | WriteReturned

  // ---------------------------------------------------------------------
  // Loading

  /** `re.sub(r'<[^>]+>', '', h).strip().lower()` */
  function HeaderName(h: string): string {
    Lower(Strip(StripTags(h)))
  }

  /** `column_mapping`: column position to header name, the clean-up being
      applied twice as in the source; every name is already lower-case. */
  function ColumnNames(headers: seq<string>): (m: seq<string>)
    ensures |m| == |headers|
    ensures forall c :: 0 <= c < |m| ==> Lower(m[c]) == m[c]
  {
    var m := seq(|headers|, c requires 0 <= c < |headers| => HeaderName(HeaderName(headers[c])));
    assert forall c :: 0 <= c < |m| ==> Lower(m[c]) == m[c] by {
      forall c | 0 <= c < |m| {
        LowerIdempotent(Strip(StripTags(HeaderName(headers[c]))));
      }
    }
    m
  }

  /** The text stored in `data`: tags removed, whitespace trimmed. */
  function CellText(cell: string): string {
    Strip(StripTags(cell))
  }

  /** Column `c` is the rightmost of the first `n` mapped columns named `m[c]`. */
  predicate LastNamed(m: seq<string>, c: nat, n: nat)
    requires c < |m|
  {
    forall c' :: c < c' < n && c' < |m| ==> m[c'] != m[c]
  }

  /** The names of the first `n` mapped columns. */
  function Mapped(m: seq<string>, n: nat): seq<string> {
    if n <= |m| then m[..n] else m
  }

  /** The cleaned text of every cell of a row. */
  function CellTexts(cells: seq<string>): (r: seq<string>)
    ensures |r| == |cells|
  {
    if cells == [] then [] else CellTexts(cells[..|cells| - 1]) + [CellText(cells[|cells| - 1])]
  }

  lemma {:induction false} CellTextsAt(cells: seq<string>, c: nat)
    requires c < |cells|
    ensures CellTexts(cells)[c] == CellText(cells[c])
  {
    if c < |cells| - 1 {
      CellTextsAt(cells[..|cells| - 1], c);
    }
  }

  /** `data` after the first `n` cells, given their cleaned `texts`. */
  function RowData(m: seq<string>, texts: seq<string>, n: nat): map<string, string>
    requires n <= |texts|
  {
    if n == 0 then map[]
    else
      var d := RowData(m, texts, n - 1);
      if n - 1 < |m| then d[m[n - 1] := texts[n - 1]] else d
  }

  /** `data` has one key per mapped column name among the first `n`
      cells. */
  lemma {:induction false} RowDataKeys(m: seq<string>, texts: seq<string>, n: nat)
    requires n <= |texts|
    ensures forall key :: key in RowData(m, texts, n) <==> key in Mapped(m, n)
  {
    if n > 0 {
      RowDataKeys(m, texts, n - 1);
      if n - 1 < |m| {
        assert Mapped(m, n) == Mapped(m, n - 1) + [m[n - 1]];
      }
    }
  }

  /** A name shared by several columns keeps the text of the rightmost one. */
  lemma {:induction false} RowDataLastWins(m: seq<string>, texts: seq<string>, n: nat, c: nat)
    requires n <= |texts| && c < n && c < |m| && LastNamed(m, c, n)
    ensures m[c] in RowData(m, texts, n) && RowData(m, texts, n)[m[c]] == texts[c]
  {
    if c < n - 1 {
      assert n - 1 < |m| ==> m[n - 1] != m[c];
      RowDataLastWins(m, texts, n - 1, c);
    }
  }

  /** The `cell_{c}` entries after the first `n` cells. */
  function RowCells(m: seq<string>, cells: seq<string>, n: nat): map<nat, string>
    requires n <= |cells|
  {
    if n == 0 then map[]
    else
      var r := RowCells(m, cells, n - 1);
      if n - 1 < |m| then r[n - 1 := cells[n - 1]] else r
  }

  /** The `cell_{c}` entries are exactly the mapped columns among the first
      `n`, each holding the raw cell content. */
  lemma {:induction false} RowCellsEntries(m: seq<string>, cells: seq<string>, n: nat)
    requires n <= |cells|
    ensures forall c: nat :: c in RowCells(m, cells, n) <==> c < n && c < |m|
    ensures forall c :: c in RowCells(m, cells, n) ==> c < |cells| && RowCells(m, cells, n)[c] == cells[c]
  {
    if n > 0 {
      RowCellsEntries(m, cells, n - 1);
    }
  }

  /** One entry of `table_data`, from the `<tr>` at position `i`, its raw
      `cells` and their cleaned `texts`. */
  function BuildRow(m: seq<string>, i: nat, cells: seq<string>, texts: seq<string>): Row
    requires |texts| == |cells|
  {
    Row(i, cells, RowData(m, texts, |texts|), RowCells(m, cells, |cells|))
  }

  /** Each `<tr>`'s cells come with one cleaned text per cell. */
  predicate Aligned(rowCells: seq<seq<string>>, rowTexts: seq<seq<string>>) {
    |rowTexts| == |rowCells| && forall i :: 0 <= i < |rowCells| ==> |rowTexts[i]| == |rowCells[i]|
  }

  /** The cleaned texts of every `<tr>`. */
  function Cleaned(rowCells: seq<seq<string>>): (r: seq<seq<string>>)
    ensures Aligned(rowCells, r)
  {
    if rowCells == [] then [] else Cleaned(rowCells[..|rowCells| - 1]) + [CellTexts(rowCells[|rowCells| - 1])]
  }

  lemma {:induction false} CleanedAt(rowCells: seq<seq<string>>, i: nat)
    requires i < |rowCells|
    ensures Cleaned(rowCells)[i] == CellTexts(rowCells[i])
  {
    if i < |rowCells| - 1 {
      CleanedAt(rowCells[..|rowCells| - 1], i);
    }
  }

  /** `table_data` after the first `n` `<tr>` rows: the header row and rows
      without `<td>` cells are skipped, the others kept in order. */
  function BuildRows(m: seq<string>, rowCells: seq<seq<string>>, rowTexts: seq<seq<string>>, n: nat): (rows: seq<Row>)
    requires Aligned(rowCells, rowTexts) && n <= |rowCells|
    ensures |rows| <= n
  {
    if n == 0 then []
    else
      var rows := BuildRows(m, rowCells, rowTexts, n - 1);
      if n - 1 == 0 || rowCells[n - 1] == [] then rows
      else rows + [BuildRow(m, n - 1, rowCells[n - 1], rowTexts[n - 1])]
  }

  /** The rows `load_table` builds from the split table. */
  function TableRows(m: seq<string>, rowCells: seq<seq<string>>): seq<Row> {
    BuildRows(m, rowCells, Cleaned(rowCells), |rowCells|)
  }

  /** Each built row comes from a non-empty `<tr>` after the header and is
      built from that row's cells. */
  lemma {:induction false} BuildRowsSource(m: seq<string>, rowCells: seq<seq<string>>, rowTexts: seq<seq<string>>, n: nat, k: nat)
    requires Aligned(rowCells, rowTexts) && n <= |rowCells| && k < |BuildRows(m, rowCells, rowTexts, n)|
    ensures 1 <= BuildRows(m, rowCells, rowTexts, n)[k].rowIndex < n
    ensures var i := BuildRows(m, rowCells, rowTexts, n)[k].rowIndex;
      rowCells[i] != [] && BuildRows(m, rowCells, rowTexts, n)[k] == BuildRow(m, i, rowCells[i], rowTexts[i])
  {
    var rows := BuildRows(m, rowCells, rowTexts, n - 1);
    if k < |rows| {
      BuildRowsSource(m, rowCells, rowTexts, n - 1, k);
      assert BuildRows(m, rowCells, rowTexts, n)[k] == rows[k];
    }
  }

  /** The rows keep the page order. */
  lemma {:induction false} BuildRowsOrdered(m: seq<string>, rowCells: seq<seq<string>>, rowTexts: seq<seq<string>>, n: nat, k: nat, k': nat)
    requires Aligned(rowCells, rowTexts) && n <= |rowCells| && k < k' < |BuildRows(m, rowCells, rowTexts, n)|
    ensures BuildRows(m, rowCells, rowTexts, n)[k].rowIndex < BuildRows(m, rowCells, rowTexts, n)[k'].rowIndex
  {
    var rows := BuildRows(m, rowCells, rowTexts, n - 1);
    assert BuildRows(m, rowCells, rowTexts, n)[k] == rows[k];
    if k' < |rows| {
      BuildRowsOrdered(m, rowCells, rowTexts, n - 1, k, k');
      assert BuildRows(m, rowCells, rowTexts, n)[k'] == rows[k'];
    } else {
      BuildRowsSource(m, rowCells, rowTexts, n - 1, k);
    }
  }

  /** Every `<tr>` after the header that has cells gives a row. */
  lemma {:induction false} BuildRowsComplete(m: seq<string>, rowCells: seq<seq<string>>, rowTexts: seq<seq<string>>, n: nat, i: nat)
    requires Aligned(rowCells, rowTexts) && n <= |rowCells| && 1 <= i < n && rowCells[i] != []
    ensures exists k :: 0 <= k < |BuildRows(m, rowCells, rowTexts, n)| && BuildRows(m, rowCells, rowTexts, n)[k].rowIndex == i
  {
    var rows := BuildRows(m, rowCells, rowTexts, n - 1);
    var all := BuildRows(m, rowCells, rowTexts, n);
    if i == n - 1 {
      assert all == rows + [BuildRow(m, i, rowCells[i], rowTexts[i])];
      assert all[|rows|].rowIndex == i;
    } else {
      BuildRowsComplete(m, rowCells, rowTexts, n - 1, i);
      var k :| 0 <= k < |rows| && rows[k].rowIndex == i;
      assert all[k] == rows[k];
    }
  }

  /** In a loaded row, a mapped column's name holds that cell's text with
      tags removed and whitespace trimmed (the rightmost column wins when
      names repeat), and `cell_{c}` holds the raw cell. */
  lemma LoadedCell(m: seq<string>, rowCells: seq<seq<string>>, k: nat, c: nat)
    requires k < |TableRows(m, rowCells)|
    requires c < |TableRows(m, rowCells)[k].originalCells| && c < |m|
    requires LastNamed(m, c, |TableRows(m, rowCells)[k].originalCells|)
    ensures var row := TableRows(m, rowCells)[k];
      m[c] in row.data && row.data[m[c]] == CellText(row.originalCells[c]) &&
      c in row.cells && row.cells[c] == row.originalCells[c]
  {
    var texts := Cleaned(rowCells);
    BuildRowsSource(m, rowCells, texts, |rowCells|, k);
    var i := TableRows(m, rowCells)[k].rowIndex;
    RowDataLastWins(m, texts[i], |texts[i]|, c);
    RowCellsEntries(m, rowCells[i], |rowCells[i]|);
    CleanedAt(rowCells, i);
    CellTextsAt(rowCells[i], c);
  }

  /** The list `load_table` returns: each row's `data`, index-aligned with
      `table_data`. */
  function DataOf(rows: seq<Row>): (r: seq<map<string, string>>)
    ensures |r| == |rows| && forall k :: 0 <= k < |rows| ==> r[k] == rows[k].data
  {
    seq(|rows|, k requires 0 <= k < |rows| => rows[k].data)
  }

  // ---------------------------------------------------------------------
  // Updating one cell

  /** Index of the first mapped column whose name equals `name` ignoring
      case. */
  function ColumnIndex(m: seq<string>, name: string): (r: Option<nat>)
    ensures r.Some? ==> r.value < |m| && Lower(m[r.value]) == Lower(name)
    ensures r.Some? ==> forall c :: 0 <= c < r.value ==> Lower(m[c]) != Lower(name)
    ensures r.None? ==> forall c :: 0 <= c < |m| ==> Lower(m[c]) != Lower(name)
  {
    ColumnIndexFrom(m, name, 0)
  }

  function ColumnIndexFrom(m: seq<string>, name: string, from: nat): (r: Option<nat>)
    requires from <= |m|
    ensures r.Some? ==> from <= r.value < |m| && Lower(m[r.value]) == Lower(name)
    ensures r.Some? ==> forall c :: from <= c < r.value ==> Lower(m[c]) != Lower(name)
    ensures r.None? ==> forall c :: from <= c < |m| ==> Lower(m[c]) != Lower(name)
    decreases |m| - from
  {
    if from == |m| then None
    else if Lower(m[from]) == Lower(name) then Some(from)
    else ColumnIndexFrom(m, name, from + 1)
  }

  /** No newline among `s[k..j]`. */
  predicate SameLine(s: string, k: nat, j: nat)
    requires k <= j <= |s|
  {
    forall x :: k <= x < j ==> s[x] != '\n'
  }

  /** Where `.*?</p>` (no DOTALL) ends when tried at `k`: the first `</p>`
      that is reached before any newline. */
  function ParaClose(s: string, k: nat): (r: Option<nat>)
    ensures r.Some? ==> k <= r.value && OccursAt(s, "</p>", r.value) && SameLine(s, k, r.value)
    ensures r.Some? ==> forall x: nat :: k <= x < r.value ==> !OccursAt(s, "</p>", x)
    ensures r.None? ==> forall j: nat :: k <= j && OccursAt(s, "</p>", j) ==> !SameLine(s, k, j)
    decreases |s| - k
  {
    if OccursAt(s, "</p>", k) then Some(k)
    else if k < |s| && s[k] != '\n' then
      var r := ParaClose(s, k + 1);
      assert r.None? ==> forall j: nat :: k + 1 <= j && OccursAt(s, "</p>", j) ==> !SameLine(s, k, j) by {
        forall j: nat | k + 1 <= j && OccursAt(s, "</p>", j) && r.None?
          ensures !SameLine(s, k, j)
        {
          assert !SameLine(s, k + 1, j);
        }
      }
      r
    else None
  }

  /** `<p>.*?</p>` matches at `i`. */
  predicate ParaAt(s: string, i: nat) {
    OccursAt(s, "<p>", i) && ParaClose(s, i + 3).Some?
  }

  /** Where `re.sub(r'<p>.*?</p>', ..., count=1)` applies: the leftmost
      position at or after `i` where a paragraph matches. */
  function FirstPara(s: string, i: nat): (r: Option<nat>)
    ensures r.Some? ==> i <= r.value && ParaAt(s, r.value)
    ensures r.Some? ==> forall x: nat :: i <= x < r.value ==> !ParaAt(s, x)
    ensures r.None? ==> forall x: nat :: i <= x ==> !ParaAt(s, x)
    decreases |s| - i
  {
    if i + 3 > |s| then None
    else if ParaAt(s, i) then Some(i)
    else FirstPara(s, i + 1)
  }

  /** Where the paragraph matched at `a` ends, its `</p>` included. */
  function ParaEnd(s: string, a: nat): (e: nat)
    requires ParaAt(s, a)
    ensures a + 7 <= e <= |s|
  {
    ParaClose(s, a + 3).value + 4
  }

  /** `re.sub(r'<p>.*?</p>', template, s, 1)`: `None` when the template
      raises `re.error`, which it does before any search, so also when
      there is no paragraph; otherwise the first paragraph is replaced by
      the expanded template. */
  function ReplaceFirstPara(s: string, template: string): (r: Option<string>)
    ensures r.None? <==> Compile(template).None?
    ensures r.Some? && FirstPara(s, 0).None? ==> r.value == s
  {
    match Compile(template)
    case None => None
    case Some(pieces) =>
      match FirstPara(s, 0)
      case None => Some(s)
      case Some(a) =>
        var e := ParaEnd(s, a);
        Some(s[..a] + Expand(pieces, s[a..e]) + s[e..])
  }

  /** The expanded template lands where the first paragraph started, and
      the text before it is kept; a template without backslashes lands
      there as written. */
  lemma ReplaceFirstParaPlacesRep(s: string, template: string)
    requires FirstPara(s, 0).Some? && Compile(template).Some?
    ensures var a, r := FirstPara(s, 0).value, ReplaceFirstPara(s, template).value;
      && a <= |r| && r[..a] == s[..a]
      && IsSubstring(Expand(Compile(template).value, s[a..ParaEnd(s, a)]), r)
      && (NoBackslash(template) ==> a + |template| <= |r| && r[a..a + |template|] == template)
      && (NoBackslash(template) ==> IsSubstring(template, r))
  {
    var a := FirstPara(s, 0).value;
    var e := ParaEnd(s, a);
    var x := Expand(Compile(template).value, s[a..e]);
    var r := ReplaceFirstPara(s, template).value;
    assert r == s[..a] + x + s[e..];
    IsSubstringAt(x, r, a);
    LiteralTemplate(template, s[a..e]);
  }

  /** A matching paragraph means the content contains `<p>`. */
  lemma ParagraphHasTag(s: string)
    ensures FirstPara(s, 0).Some? ==> IsSubstring("<p>", s)
  {
    if FirstPara(s, 0).Some? {
      IsSubstringAt("<p>", s, FirstPara(s, 0).value);
    }
  }

  /** The new raw content of an updated cell, or `None` when `re.sub`
      raises on the template `<p>{v}</p>`.  Content without `<p>` simply
      becomes a paragraph (no template is compiled on that path);
      otherwise the first one-line paragraph is replaced, and a `<p>`
      with no `</p>` on its line leaves the content unchanged. */
  function NewCellContent(content: string, v: string): (r: Option<string>)
    ensures !IsSubstring("<p>", content) ==> r == Some("<p>" + v + "</p>")
    ensures IsSubstring("<p>", content) ==> (r.None? <==> Compile("<p>" + v + "</p>").None?)
    ensures NoBackslash(v) ==> r.Some?
    ensures NoBackslash(v) && FirstPara(content, 0).Some? ==> IsSubstring("<p>" + v + "</p>", r.value)
    ensures r.Some? && FirstPara(content, 0).Some? ==>
      FirstPara(content, 0).value <= |r.value| &&
      r.value[..FirstPara(content, 0).value] == content[..FirstPara(content, 0).value]
    ensures r.Some? && FirstPara(content, 0).None? && IsSubstring("<p>", content) ==> r.value == content
  {
    var rep := "<p>" + v + "</p>";
    ParagraphHasTag(content);
    NoBackslashConcat("<p>", v);
    NoBackslashConcat("<p>" + v, "</p>");
    LiteralTemplate(rep, []);
    if IsSubstring("<p>", content) then
      if FirstPara(content, 0).Some? && Compile(rep).Some? then
        ReplaceFirstParaPlacesRep(content, rep);
        ReplaceFirstPara(content, rep)
      else ReplaceFirstPara(content, rep)
    else Some(rep)
  }

  /** `update_cell` on a paragraph with a Windows path: the `\d` in the
      template raises, so the update is refused. */
  lemma WindowsPathCellFails()
    ensures NewCellContent("<p>old</p>", "C:\\data").None?
  {
    IsSubstringAt("<p>", "<p>old</p>", 0);
    WindowsPathRaises();
    assert "<p>" + "C:\\data" + "</p>" == "<p>C:\\data</p>";
  }

  /** `before` and `after` differ only in the raw content of column `col`
      and the text under `key`, which becomes `v`. */
  predicate CellUpdated(before: Row, after: Row, col: nat, key: string, v: string) {
    && after.rowIndex == before.rowIndex
    && after.originalCells == before.originalCells
    && col in before.cells
    && NewCellContent(before.cells[col], v).Some?
    && after.cells.Keys == before.cells.Keys
    && after.cells[col] == NewCellContent(before.cells[col], v).value
    && (forall c :: c in before.cells && c != col ==> after.cells[c] == before.cells[c])
    && after.data.Keys == before.data.Keys + {key}
    && after.data[key] == v
    && (forall k :: k in before.data && k != key ==> after.data[k] == before.data[k])
  }

  /** `update_cell` on the rows: `None` for each of the three rejections
      (row out of range, unknown column, no stored cell) and when the new
      value makes the paragraph template raise; otherwise only the target
      row changes, and in it only the target cell. */
  function Update(rows: seq<Row>, m: seq<string>, r: int, name: string, v: string): (res: Option<seq<Row>>)
    ensures res.Some? <==>
      && 0 <= r < |rows| && ColumnIndex(m, name).Some? && ColumnIndex(m, name).value in rows[r].cells
      && NewCellContent(rows[r].cells[ColumnIndex(m, name).value], v).Some?
    ensures NoBackslash(v) ==> (res.Some? <==>
      0 <= r < |rows| && ColumnIndex(m, name).Some? && ColumnIndex(m, name).value in rows[r].cells)
    ensures res.Some? ==> |res.value| == |rows|
    ensures res.Some? ==> forall k :: 0 <= k < |rows| && k != r ==> res.value[k] == rows[k]
    ensures res.Some? ==> CellUpdated(rows[r], res.value[r], ColumnIndex(m, name).value, Lower(name), v)
  {
    if r < 0 || r >= |rows| then None
    else match ColumnIndex(m, name)
      case None => None
      case Some(col) =>
        if col !in rows[r].cells then None
        else match NewCellContent(rows[r].cells[col], v)
          case None => None
          case Some(content) =>
            var row := rows[r];
            var row' := row.(cells := row.cells[col := content], data := row.data[Lower(name) := v]);
            Some(rows[r := row'])
  }

  // ---------------------------------------------------------------------
  // Regenerating the HTML

  /** A cell is emitted as is when its stripped content starts with `<p>`,
      and wrapped in a paragraph otherwise. */
  function Wrap(content: string): string {
    if "<p>" <= Strip(content) then content else "<p>" + content + "</p>"
  }

  /** What goes between `<td>` and `</td>` for column `c` of `row`. */
  function CellBody(row: Row, c: nat): string {
    if c in row.cells then Wrap(row.cells[c]) else "<p></p>"
  }

  function HeaderCell(name: string): string {
    "<th><p><strong>" + Title(name) + "</strong></p></th>"
  }

  function HeaderCells(m: seq<string>): (r: seq<string>)
    ensures |r| == |m|
  {
    seq(|m|, c requires 0 <= c < |m| => HeaderCell(m[c]))
  }

  function DataCell(row: Row, c: nat): string {
    "<td>" + CellBody(row, c) + "</td>"
  }

  /** One `<td>` per mapped column, in ascending column order. */
  function DataCells(m: seq<string>, row: Row): (r: seq<string>)
    ensures |r| == |m|
  {
    seq(|m|, c requires 0 <= c < |m| => DataCell(row, c))
  }

  function RowHtml(m: seq<string>, row: Row): string {
    "<tr>" + Join(DataCells(m, row), "") + "</tr>\n"
  }

  /** One `<tr>` per entry of `table_data`, in order. */
  function RowsHtml(m: seq<string>, rows: seq<Row>): (r: seq<string>)
    ensures |r| == |rows|
  {
    seq(|rows|, i requires 0 <= i < |rows| => RowHtml(m, rows[i]))
  }

  function HeaderHtml(m: seq<string>): string {
    "<tr>" + Join(HeaderCells(m), "") + "</tr>\n"
  }

  /** The table `save_changes` writes: a header row, then one row per
      `table_data` entry. */
  function TableHtml(m: seq<string>, rows: seq<Row>): string {
    "<table><tbody>\n" + HeaderHtml(m) + Join(RowsHtml(m, rows), "") + "</tbody></table>"
  }

  /** `<table.*?>.*?</table>` (DOTALL) matches at `i`. */
  predicate TableAt(s: string, i: nat) {
    && OccursAt(s, "<table", i)
    && FindChar(s, '>', i + 6).Some?
    && FindFrom(s, "</table>", FindChar(s, '>', i + 6).value + 1).Some?
  }

  /** The leftmost table at or after `i`. */
  function FirstTable(s: string, i: nat): (r: Option<nat>)
    ensures r.Some? ==> i <= r.value && TableAt(s, r.value)
    ensures r.Some? ==> forall x: nat :: i <= x < r.value ==> !TableAt(s, x)
    ensures r.None? ==> forall x: nat :: i <= x ==> !TableAt(s, x)
    decreases |s| - i
  {
    if i + 6 > |s| then None
    else if TableAt(s, i) then Some(i)
    else FirstTable(s, i + 1)
  }

  /** Where the table matched at `a` ends, its `</table>` included. */
  function TableEnd(s: string, a: nat): (e: nat)
    requires TableAt(s, a)
    ensures a + 14 <= e <= |s|
  {
    FindFrom(s, "</table>", FindChar(s, '>', a + 6).value + 1).value + 8
  }

  /** `re.sub(r'<table.*?>.*?</table>', template, s, count=1, flags=re.DOTALL)`:
      `None` when the template raises `re.error` (table or no table);
      otherwise only the first table is replaced by the expanded template,
      and a page without one is unchanged. */
  function ReplaceFirstTable(s: string, template: string): (r: Option<string>)
    ensures r.None? <==> Compile(template).None?
    ensures r.Some? && FirstTable(s, 0).None? ==> r.value == s
    ensures r.Some? && FirstTable(s, 0).Some? ==>
      IsSubstring(Expand(Compile(template).value, s[FirstTable(s, 0).value..TableEnd(s, FirstTable(s, 0).value)]), r.value)
    ensures NoBackslash(template) ==> r.Some?
    ensures NoBackslash(template) && FirstTable(s, 0).Some? ==> IsSubstring(template, r.value)
  {
    LiteralTemplate(template, []);
    match Compile(template)
    case None => None
    case Some(pieces) =>
      match FirstTable(s, 0)
      case None => Some(s)
      case Some(a) =>
        var e := TableEnd(s, a);
        var x := Expand(pieces, s[a..e]);
        var r := s[..a] + x + s[e..];
        IsSubstringAt(x, r, a);
        LiteralTemplate(template, s[a..e]);
        Some(r)
  }

  /** Every emitted cell body is a paragraph once stripped, whether it was
      stored, wrapped or missing. */
  lemma CellBodyIsParagraph(row: Row, c: nat)
    ensures "<p>" <= Strip(CellBody(row, c))
  {
    var b := CellBody(row, c);
    if c in row.cells && !("<p>" <= Strip(row.cells[c])) {
      StripUnpadded(b);
    } else if c !in row.cells {
      StripUnpadded(b);
    }
  }

  /** Regenerating a regenerated cell does not wrap it again. */
  lemma WrapIdempotent(content: string)
    ensures Wrap(Wrap(content)) == Wrap(content)
  {
    if !("<p>" <= Strip(content)) {
      StripUnpadded("<p>" + content + "</p>");
    }
  }

  /** After a successful update of a cell with no `<p>`, the regenerated
      cell is exactly the new value in a paragraph, and every other row of
      the table renders as before. */
  lemma UpdateThenRender(rows: seq<Row>, m: seq<string>, r: int, name: string, v: string)
    requires Update(rows, m, r, name, v).Some?
    requires !IsSubstring("<p>", rows[r].cells[ColumnIndex(m, name).value])
    ensures DataCell(Update(rows, m, r, name, v).value[r], ColumnIndex(m, name).value) == "<td><p>" + v + "</p></td>"
    ensures forall k :: 0 <= k < |rows| && k != r ==> RowHtml(m, Update(rows, m, r, name, v).value[k]) == RowHtml(m, rows[k])
  {
    var col := ColumnIndex(m, name).value;
    var content := "<p>" + v + "</p>";
    StripUnpadded(content);
  }

  /** The row loop of `load_table`: skip the header `<tr>` and the rows
      without cells, build the others. */
  method LoadRows(m: seq<string>, rowCells: seq<seq<string>>, rowTexts: seq<seq<string>>) returns (rows: seq<Row>)
    requires Aligned(rowCells, rowTexts)
    ensures rows == BuildRows(m, rowCells, rowTexts, |rowCells|)
  {
    rows := [];
    var i := 0;
    while i < |rowCells|
      invariant 0 <= i <= |rowCells|
      invariant rows == BuildRows(m, rowCells, rowTexts, i)
    {
      var cells := rowCells[i];
      if i != 0 && cells != [] {
        var data, raw := MappedCells(m, cells, rowTexts[i]);
        assert Row(i, cells, data, raw) == BuildRow(m, i, cells, rowTexts[i]);
        rows := rows + [Row(i, cells, data, raw)];
      }
      assert rows == BuildRows(m, rowCells, rowTexts, i + 1);
      i := i + 1;
    }
  }

  /** The `data` and `cell_{c}` entries of one row, column by column,
      given the cleaned `texts` of its cells. */
  method MappedCells(m: seq<string>, cells: seq<string>, texts: seq<string>) returns (data: map<string, string>, raw: map<nat, string>)
    requires |texts| == |cells|
    ensures data == RowData(m, texts, |cells|) && raw == RowCells(m, cells, |cells|)
  {
    data := map[];
    raw := map[];
    var c := 0;
    while c < |cells|
      invariant 0 <= c <= |cells|
      invariant data == RowData(m, texts, c)
      invariant raw == RowCells(m, cells, c)
    {
      if c < |m| {
        data := data[m[c] := texts[c]];
        raw := raw[c := cells[c]];
      }
      c := c + 1;
    }
  }

  /** The header row: one `<th>` per mapped column, title-cased. */
  method RenderHeader(m: seq<string>) returns (line: string)
    ensures line == HeaderHtml(m)
  {
    var header := HeaderCells(m);
    var cells := "";
    var c := 0;
    while c < |m|
      invariant 0 <= c <= |m|
      invariant cells == Join(header[..c], "")
    {
      JoinPrefixStep(header, c);
      cells := cells + HeaderCell(m[c]);
      c := c + 1;
    }
    assert header[..|m|] == header;
    line := "<tr>" + cells + "</tr>\n";
  }

  /** The `<td>` of column `c`: the raw cell, wrapped in `<p>` when its
      stripped text does not open with one, or an empty paragraph when the
      row has no cell for the column. */
  method RenderCell(row: Row, c: nat) returns (cell: string)
    ensures cell == DataCell(row, c)
  {
    if c in row.cells {
      var content := row.cells[c];
      if !("<p>" <= Strip(content)) {
        content := "<p>" + content + "</p>";
      }
      cell := "<td>" + content + "</td>";
    } else {
      cell := "<td><p></p></td>";
    }
  }

  /** One data row: a cell per mapped column, wrapped or filled in. */
  method RenderRow(m: seq<string>, row: Row) returns (line: string)
    ensures line == RowHtml(m, row)
  {
    var expected := DataCells(m, row);
    var cells := "";
    var k := 0;
    while k < |m|
      invariant 0 <= k <= |m|
      invariant cells == Join(expected[..k], "")
    {
      JoinPrefixStep(expected, k);
      var cell := RenderCell(row, k);
      cells := cells + cell;
      k := k + 1;
    }
    assert expected[..|m|] == expected;
    line := "<tr>" + cells + "</tr>\n";
  }

  /** Extending a concatenation by one more part. */
  lemma JoinPrefixStep(parts: seq<string>, k: nat)
    requires k < |parts|
    ensures Join(parts[..k + 1], "") == Join(parts[..k], "") + parts[k]
  {
    assert parts[..k + 1] == parts[..k] + [parts[k]];
    JoinSnoc(parts[..k], parts[k], "");
  }
}

/** The `ConfluenceTable` object: the page body, the column mapping and the
    rows, loaded, updated in place and written back. */
module ConfluenceTable {
  import opened Common
  import opened Text
  import opened ReTemplate
  import opened ConfluenceRows

  class Table {
    var pageId: string
    var pageContent: string
    var columnMapping: seq<string>
    var tableData: seq<Row>

    constructor (pageId: string)
      ensures this.pageId == pageId && pageContent == "" && columnMapping == [] && tableData == []
    {
      this.pageId := pageId;
      pageContent := "";
      columnMapping := [];
      tableData := [];
    }

    /** `load_table` once the page body `content` has been fetched and
        split: a page without a table or without rows returns `[]` and
        keeps the previous mapping and rows. */
    method LoadTable(content: string, parse: TableParse) returns (rows: seq<map<string, string>>)
      modifies this
      ensures pageId == old(pageId) && pageContent == content
      ensures parse.Parsed? ==> columnMapping == ColumnNames(parse.headerCells)
      ensures parse.Parsed? ==> tableData == TableRows(columnMapping, parse.rowCells)
      ensures parse.Parsed? ==> rows == DataOf(tableData)
      ensures !parse.Parsed? ==> columnMapping == old(columnMapping) && tableData == old(tableData) && rows == []
    {
      pageContent := content;
      if !parse.Parsed? {
        return [];
      }
      columnMapping := ColumnNames(parse.headerCells);
      tableData := LoadRows(columnMapping, parse.rowCells, Cleaned(parse.rowCells));
      rows := DataOf(tableData);
    }

    /** `update_cell`: `ok` is false, and nothing changes, exactly when
        `Update` rejects the request; otherwise the rows become its result. */
    method UpdateCell(rowIndex: int, columnName: string, newValue: string) returns (ok: bool)
      modifies this
      ensures pageId == old(pageId) && pageContent == old(pageContent) && columnMapping == old(columnMapping)
      ensures ok == Update(old(tableData), columnMapping, rowIndex, columnName, newValue).Some?
      ensures tableData == if ok then Update(old(tableData), columnMapping, rowIndex, columnName, newValue).value
                           else old(tableData)
    {
      if rowIndex < 0 || rowIndex >= |tableData| {
        return false;
      }
      var target := Lower(columnName);
      var col: Option<nat> := None;
      var idx := 0;
      while idx < |columnMapping|
        invariant 0 <= idx <= |columnMapping|
        invariant forall c :: 0 <= c < idx ==> Lower(columnMapping[c]) != target
      {
        if Lower(columnMapping[idx]) == target {
          col := Some(idx);
          break;
        }
        idx := idx + 1;
      }
      if col.None? {
        return false;
      }
      var row := tableData[rowIndex];
      if col.value !in row.cells {
        return false;
      }
      var newContent := NewCellContent(row.cells[col.value], newValue);
      if newContent.None? {
        return false;
      }
      row := row.(cells := row.cells[col.value := newContent.value]);
      row := row.(data := row.data[target := newValue]);
      tableData := tableData[rowIndex := row];
      ok := true;
    }

    /** The table HTML `save_changes` builds from the current state. */
    method RenderTable() returns (html: string)
      ensures html == TableHtml(columnMapping, tableData)
    {
      var m := columnMapping;
      var header := RenderHeader(m);
      html := "<table><tbody>\n" + header;
      var lines := RowsHtml(m, tableData);
      var body := "";
      var i := 0;
      while i < |tableData|
        invariant 0 <= i <= |tableData|
        invariant body == Join(lines[..i], "")
      {
        var line := RenderRow(m, tableData[i]);
        JoinPrefixStep(lines, i);
        body := body + line;
        i := i + 1;
      }
      assert lines[..|tableData|] == lines;
      html := html + body;
      html := html + "</tbody></table>";
    }

    /** `save_changes`: the first table of the stored page body is replaced
        by the regenerated table, used as an `re.sub` template.  When that
        template raises (`body` is `None`) nothing is written and the
        answer is false; otherwise the result is written through `write`,
        and the answer is true exactly when the write returned a page.  The
        object itself is not changed, so the stored body keeps the old
        table. */
    method SaveChanges(write: string -> PageWrite) returns (ok: bool, body: Option<string>)
      ensures body == ReplaceFirstTable(pageContent, TableHtml(columnMapping, tableData))
      ensures body.None? ==> !ok
      ensures body.Some? ==> (ok <==> write(body.value) == WriteReturned)
      ensures NoBackslash(TableHtml(columnMapping, tableData)) ==> body.Some?
      ensures NoBackslash(TableHtml(columnMapping, tableData)) && FirstTable(pageContent, 0).Some? ==>
        IsSubstring(TableHtml(columnMapping, tableData), body.value)
    {
      var html := RenderTable();
      body := ReplaceFirstTable(pageContent, html);
      if body.None? {
        return false, body;
      }
      ok := write(body.value) == WriteReturned;
    }
  }

}
