/**
 * The match table of a player page, read from a snapshot of the page's DOM:
 * which table is the match table, where its columns are, and which records
 * its body rows give. Every text in the snapshot is already trimmed.
 */
module Tables {
  import opened Wrappers
  import opened Text

  /** A `td` cell: its text, and the text of its first `a` element when it has one. */
  datatype Cell = Cell(text: string, link: Option<string>)

  /**
   * A `table` element: the texts of the `th` cells inside its `thead` rows,
   * the texts of the `th` cells of all its rows, and the `td` cells of each
   * row inside its `tbody`, in document order.
   */
  datatype Table = Table(theadLabels: seq<string>, rowLabels: seq<string>, body: seq<seq<Cell>>)

  /** A record extracted from a row: column label to text, like a JavaScript object with string values. */
  type Row = map<string, string>

  /** `getHeaders`: the `thead` labels when there is at least one, otherwise the labels of all rows. */
  function Labels(t: Table): seq<string> {
    if |t.theadLabels| > 0 then t.theadLabels else t.rowLabels
  }

  /** A table is the match table when its labels include both "Date" and "Score". */
  predicate IsMatchTable(t: Table) {
    "Date" in Labels(t) && "Score" in Labels(t)
  }

  /** The position of the first match table in document order, if any. */
  function FirstMatchTable(tables: seq<Table>): (r: Option<nat>)
    ensures r.Some? ==> r.value < |tables| && IsMatchTable(tables[r.value])
    ensures r.Some? ==> forall j :: 0 <= j < r.value ==> !IsMatchTable(tables[j])
    ensures r.None? <==> forall j :: 0 <= j < |tables| ==> !IsMatchTable(tables[j])
  {
    if tables == [] then None
    else if IsMatchTable(tables[0]) then Some(0)
    else
      match FirstMatchTable(tables[1..])
      case None =>
        assert forall j :: 1 <= j < |tables| ==> tables[j] == tables[1..][j - 1];
        None
      case Some(i) => Some(i + 1)
  }

  /** The table search: scan the tables in order and stop at the first match table. */
  method LocateTable(tables: seq<Table>) returns (target: Option<nat>)
    ensures target == FirstMatchTable(tables)
  {
    target := None;
    var i := 0;
    while i < |tables|
      invariant 0 <= i <= |tables|
      invariant target == None
      invariant forall j :: 0 <= j < i ==> !IsMatchTable(tables[j])
    {
      if IsMatchTable(tables[i]) {
        target := Some(i);
        break;
      }
      i := i + 1;
    }
  }

  /** The column positions of the match table; -1 stands for a missing column. */
  datatype Columns = Columns(
    date: int, rk: int, dr: int, aPct: int, dfPct: int, bpSvd: int,
    tournament: int, vRk: int, score: int, opponent: int)

  function Min(a: int, b: int): int {
    if a <= b then a else b
  }

  /** The opponent column is taken to be the one right after the earlier of "vRk" and "Score". */
  function OpponentIndex(vRk: int, score: int): int {
    if vRk != -1 && score != -1 then Min(vRk, score) + 1 else -1
  }

  /** Each labelled column at the first occurrence of its label. */
  function ColumnsOf(labels: seq<string>): Columns {
    var vRk := IndexOf(labels, "vRk");
    var score := IndexOf(labels, "Score");
    Columns(
      IndexOf(labels, "Date"), IndexOf(labels, "Rk"), IndexOf(labels, "DR"),
      IndexOf(labels, "A%"), IndexOf(labels, "DF%"), IndexOf(labels, "BPSvd"),
      IndexOf(labels, "Tournament"), vRk, score, OpponentIndex(vRk, score))
  }

  /** `get`: the text of cell `i`, or "" when `i` is -1 or past the last cell. */
  function CellText(tds: seq<Cell>, i: int): string {
    if 0 <= i < |tds| then tds[i].text else ""
  }

  /** The opponent cell's link text when it has a link, its own text otherwise, "" when out of range. */
  function OpponentText(tds: seq<Cell>, i: int): string {
    if 0 <= i < |tds| then
      match tds[i].link
      case Some(a) => a
      case None => tds[i].text
    else ""
  }

  /** The record of one body row. */
  function RowRecord(tds: seq<Cell>, c: Columns): Row {
    map[
      "Date" := CellText(tds, c.date),
      "Tournament" := CellText(tds, c.tournament),
      "Rk" := CellText(tds, c.rk),
      "vRk" := CellText(tds, c.vRk),
      "DR" := CellText(tds, c.dr),
      "A%" := CellText(tds, c.aPct),
      "DF%" := CellText(tds, c.dfPct),
      "BPSvd" := CellText(tds, c.bpSvd),
      "Opponent" := OpponentText(tds, c.opponent)]
  }

  /** The keys of every extracted record. */
  const RecordKeys: set<string> := {"Date", "Tournament", "Rk", "vRk", "DR", "A%", "DF%", "BPSvd", "Opponent"}

  /** The body rows with at least one `td`. */
  function WithCells(rows: seq<seq<Cell>>): seq<seq<Cell>>
    decreases |rows|
  {
    if rows == [] then []
    else (if |rows[0]| > 0 then [rows[0]] else []) + WithCells(rows[1..])
  }

  function Records(rows: seq<seq<Cell>>, c: Columns): (r: seq<Row>)
    ensures |r| == |rows|
  {
    seq(|rows|, i requires 0 <= i < |rows| => RowRecord(rows[i], c))
  }

  /** The records whose Date is present and not empty. */
  function Dated(records: seq<Row>): seq<Row>
    decreases |records|
  {
    if records == [] then []
    else
      var r := records[0];
      (if "Date" in r && r["Date"] != "" then [r] else []) + Dated(records[1..])
  }

  /** The records a table body gives under a column layout. */
  function Extract(rows: seq<seq<Cell>>, c: Columns): seq<Row> {
    Dated(Records(WithCells(rows), c))
  }

  /** The records of the match table, in body-row order. */
  function ExtractRows(t: Table): seq<Row> {
    Extract(t.body, ColumnsOf(Labels(t)))
  }

  // ---------------------------------------------------------------------
  // Properties

  /** `i` is where `key` first occurs in `labels`, or -1 when it does not occur. */
  predicate FirstOccurrence(labels: seq<string>, key: string, i: int) {
    && (i == -1 <==> key !in labels)
    && (i >= 0 ==> i < |labels| && labels[i] == key && key !in labels[..i])
  }

  lemma IndexOfFirst(labels: seq<string>, key: string)
    ensures FirstOccurrence(labels, key, IndexOf(labels, key))
  {
    var i := IndexOf(labels, key);
    if i >= 0 {
      assert forall j :: 0 <= j < i ==> labels[..i][j] == labels[j];
    }
  }

  /** Every labelled column is found at the first occurrence of its label; an absent one reads as -1. */
  lemma ColumnsAtFirstOccurrence(labels: seq<string>)
    ensures var c := ColumnsOf(labels);
      && FirstOccurrence(labels, "Date", c.date)
      && FirstOccurrence(labels, "Rk", c.rk)
      && FirstOccurrence(labels, "DR", c.dr)
      && FirstOccurrence(labels, "A%", c.aPct)
      && FirstOccurrence(labels, "DF%", c.dfPct)
      && FirstOccurrence(labels, "BPSvd", c.bpSvd)
      && FirstOccurrence(labels, "Tournament", c.tournament)
      && FirstOccurrence(labels, "vRk", c.vRk)
      && FirstOccurrence(labels, "Score", c.score)
  {
    IndexOfFirst(labels, "Date");
    IndexOfFirst(labels, "Rk");
    IndexOfFirst(labels, "DR");
    IndexOfFirst(labels, "A%");
    IndexOfFirst(labels, "DF%");
    IndexOfFirst(labels, "BPSvd");
    IndexOfFirst(labels, "Tournament");
    IndexOfFirst(labels, "vRk");
    IndexOfFirst(labels, "Score");
  }

  function Max(a: int, b: int): int {
    if a <= b then b else a
  }

  /**
   * The opponent column exists exactly when both "vRk" and "Score" are
   * labels; it is then the column right after the earlier of the two, so it
   * lies after that one and no later than the other one: when the two are
   * adjacent it is the later one's own column.
   */
  lemma OpponentColumn(labels: seq<string>)
    ensures var c := ColumnsOf(labels); c.opponent >= 0 <==> "vRk" in labels && "Score" in labels
    ensures var c := ColumnsOf(labels); c.opponent >= 0 ==> Min(c.vRk, c.score) < c.opponent <= Max(c.vRk, c.score)
    ensures var c := ColumnsOf(labels); c.opponent >= 0 ==> c.opponent == Min(c.vRk, c.score) + 1
  {
  }

  /** A missing opponent column, or one past the row's last cell, gives an empty opponent. */
  lemma OpponentOutOfRange(tds: seq<Cell>, c: Columns)
    requires c.opponent < 0 || c.opponent >= |tds|
    ensures RowRecord(tds, c)["Opponent"] == ""
  {
  }

  /** A linked opponent cell gives the link text, an unlinked one its own text. */
  lemma OpponentPrefersLink(tds: seq<Cell>, c: Columns)
    requires 0 <= c.opponent < |tds|
    ensures tds[c.opponent].link.Some? ==> RowRecord(tds, c)["Opponent"] == tds[c.opponent].link.value
    ensures tds[c.opponent].link.None? ==> RowRecord(tds, c)["Opponent"] == tds[c.opponent].text
  {
  }

  /** The column a record key other than "Opponent" is read from. */
  function ColumnFor(c: Columns, key: string): int {
    if key == "Date" then c.date
    else if key == "Tournament" then c.tournament
    else if key == "Rk" then c.rk
    else if key == "vRk" then c.vRk
    else if key == "DR" then c.dr
    else if key == "A%" then c.aPct
    else if key == "DF%" then c.dfPct
    else if key == "BPSvd" then c.bpSvd
    else -1
  }

  /** Every key but "Opponent" holds the text of its own column's cell. */
  lemma RecordReadsColumn(tds: seq<Cell>, c: Columns, key: string)
    requires key in RecordKeys - {"Opponent"}
    ensures RowRecord(tds, c)[key] == CellText(tds, ColumnFor(c, key))
  {
  }

  /** Under the table's own layout, a key's column is the first occurrence of its label. */
  lemma ColumnForLabel(labels: seq<string>, key: string)
    requires key in RecordKeys - {"Opponent"}
    ensures ColumnFor(ColumnsOf(labels), key) == IndexOf(labels, key)
  {
    var c := ColumnsOf(labels);
    if key == "Date" {
      assert ColumnFor(c, key) == c.date;
    } else if key == "Tournament" {
      assert ColumnFor(c, key) == c.tournament;
    } else if key == "Rk" {
      assert ColumnFor(c, key) == c.rk;
    } else if key == "vRk" {
      assert ColumnFor(c, key) == c.vRk;
    } else if key == "DR" {
      assert ColumnFor(c, key) == c.dr;
    } else if key == "A%" {
      assert ColumnFor(c, key) == c.aPct;
    } else if key == "DF%" {
      assert ColumnFor(c, key) == c.dfPct;
    } else {
      assert key == "BPSvd";
      assert ColumnFor(c, key) == c.bpSvd;
    }
  }

  /** A column whose label is missing reads as "" in every row. */
  lemma MissingColumnReadsEmpty(labels: seq<string>, tds: seq<Cell>, key: string)
    requires key in RecordKeys - {"Opponent"}
    requires key !in labels
    ensures RowRecord(tds, ColumnsOf(labels))[key] == ""
  {
    RecordReadsColumn(tds, ColumnsOf(labels), key);
    ColumnForLabel(labels, key);
  }

  /** Without both "vRk" and "Score" among the labels, every opponent is "". */
  lemma MissingOpponentReadsEmpty(labels: seq<string>, tds: seq<Cell>)
    requires "vRk" !in labels || "Score" !in labels
    ensures RowRecord(tds, ColumnsOf(labels))["Opponent"] == ""
  {
    OpponentColumn(labels);
  }

  /** A present column reads the text of its cell, or "" when the row is too short. */
  lemma PresentColumnReadsCell(labels: seq<string>, tds: seq<Cell>, key: string)
    requires key in RecordKeys - {"Opponent"}
    requires key in labels
    ensures var i := IndexOf(labels, key);
      RowRecord(tds, ColumnsOf(labels))[key] == (if i < |tds| then tds[i].text else "")
  {
    RecordReadsColumn(tds, ColumnsOf(labels), key);
    ColumnForLabel(labels, key);
  }

  lemma {:induction false} WithCellsAppend(a: seq<seq<Cell>>, b: seq<seq<Cell>>)
    ensures WithCells(a + b) == WithCells(a) + WithCells(b)
    decreases |a|
  {
    if a == [] {
      assert a + b == b;
    } else {
      assert (a + b)[1..] == a[1..] + b;
      WithCellsAppend(a[1..], b);
    }
  }

  lemma {:induction false} DatedAppend(a: seq<Row>, b: seq<Row>)
    ensures Dated(a + b) == Dated(a) + Dated(b)
    decreases |a|
  {
    if a == [] {
      assert a + b == b;
    } else {
      assert (a + b)[1..] == a[1..] + b;
      DatedAppend(a[1..], b);
    }
  }

  /** Extraction works row by row: the records of two blocks of rows are those of each block, in order. */
  lemma ExtractAppend(a: seq<seq<Cell>>, b: seq<seq<Cell>>, c: Columns)
    ensures Extract(a + b, c) == Extract(a, c) + Extract(b, c)
  {
    WithCellsAppend(a, b);
    var wa, wb := WithCells(a), WithCells(b);
    assert Records(wa + wb, c) == Records(wa, c) + Records(wb, c);
    DatedAppend(Records(wa, c), Records(wb, c));
  }

  /** A single row gives its record exactly when it has a cell and a non-empty Date. */
  lemma ExtractOne(tds: seq<Cell>, c: Columns)
    ensures Extract([tds], c) == if |tds| > 0 && CellText(tds, c.date) != "" then [RowRecord(tds, c)] else []
  {
    assert WithCells([tds]) == (if |tds| > 0 then [tds] else []) + WithCells([]);
    assert WithCells([]) == [];
    if |tds| > 0 {
      var r := RowRecord(tds, c);
      assert WithCells([tds]) == [tds];
      assert Records([tds], c) == [r];
      assert [r][1..] == [];
      assert Dated([r]) == (if "Date" in r && r["Date"] != "" then [r] else []) + Dated([]);
    } else {
      assert WithCells([tds]) == [];
      assert Records([], c) == [];
    }
  }

  /** Every extracted record has the nine record keys and a non-empty Date. */
  lemma {:induction false} ExtractShape(rows: seq<seq<Cell>>, c: Columns)
    ensures forall r :: r in Extract(rows, c) ==> r.Keys == RecordKeys && r["Date"] != ""
    decreases |rows|
  {
    if rows != [] {
      assert rows == [rows[0]] + rows[1..];
      ExtractAppend([rows[0]], rows[1..], c);
      ExtractOne(rows[0], c);
      ExtractShape(rows[1..], c);
      RowRecordShape(rows[0], c);
    }
  }

  /** Every record has exactly the nine record keys, its Date read from the date column. */
  lemma RowRecordShape(tds: seq<Cell>, c: Columns)
    ensures RowRecord(tds, c).Keys == RecordKeys
    ensures RowRecord(tds, c)["Date"] == CellText(tds, c.date)
  {
  }

  /** The example of an opponent cell whose link text is followed by a seeding note. */
  lemma LinkedOpponentExample(date: string)
    requires date != ""
    ensures var t := Table([], ["Date", "vRk", "Opponent", "Score"],
                           [[Cell(date, None), Cell("12", None), Cell("A. Player (3)", Some("A. Player")), Cell("6-4 6-3", None)]]);
      ExtractRows(t) == [map["Date" := date, "Tournament" := "", "Rk" := "", "vRk" := "12", "DR" := "",
                             "A%" := "", "DF%" := "", "BPSvd" := "", "Opponent" := "A. Player"]]
  {
    var labels := ["Date", "vRk", "Opponent", "Score"];
    var tds := [Cell(date, None), Cell("12", None), Cell("A. Player (3)", Some("A. Player")), Cell("6-4 6-3", None)];
    ExampleColumns(labels);
    var c := ColumnsOf(labels);
    ExtractOne(tds, c);
    var r := RowRecord(tds, c);
    assert r["Opponent"] == "A. Player";
    assert r == map["Date" := date, "Tournament" := "", "Rk" := "", "vRk" := "12", "DR" := "",
                    "A%" := "", "DF%" := "", "BPSvd" := "", "Opponent" := "A. Player"];
  }

  lemma ExampleColumns(labels: seq<string>)
    requires labels == ["Date", "vRk", "Opponent", "Score"]
    ensures ColumnsOf(labels) == Columns(0, -1, -1, -1, -1, -1, -1, 1, 3, 2)
  {
    assert labels[0] == "Date" && labels[1] == "vRk" && labels[2] == "Opponent" && labels[3] == "Score";
    assert "Tournament" !in labels && "Rk" !in labels && "DR" !in labels;
    assert "A%" !in labels && "DF%" !in labels && "BPSvd" !in labels;
  }
}
