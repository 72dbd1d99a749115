/**
 * The scraping run: the profile-page slug of each player, the rows each
 * player page gives once merged with the player's profile, the serial loop
 * that collects every player's rows and skips players whose page fails, and
 * the CSV text written at the end.
 *
 * Browser navigation is not modelled; the loop is handed, for each player,
 * what the page turned out to be: a snapshot of its tables and profile
 * fields, or the failure that the navigation, the wait for the match table or
 * the in-page evaluation raised.
 */
module Scrape {
  import opened Wrappers
  import opened Text
  import opened Csv
  import opened Players
  import opened Tables

  /** The profile fields read from a player page's text (taken as given). */
  datatype Profile = Profile(age: string, plays: string)

  /** A player page as the browser delivered it. */
  datatype Page = Loaded(tables: seq<Table>, profile: Profile) | Failed(reason: string)

  // ---------------------------------------------------------------------
  // One player

  /** The player name as it goes into the profile URL: only its first space is removed. */
  function Slug(name: string): string {
    var i := IndexOf(name, ' ');
    if i == -1 then name else name[..i] + name[i + 1..]
  }

  function ProfileFields(p: Profile): Row {
    map["Age" := p.age, "Plays" := p.plays]
  }

  /** The records of a page: those of its first match table, none when it has none. */
  function PageRows(tables: seq<Table>): seq<Row> {
    match FirstMatchTable(tables)
    case None => []
    case Some(i) => ExtractRows(tables[i])
  }

  /** Each record spread with the profile after it, so that the profile's fields win. */
  function WithProfile(rows: seq<Row>, p: Profile): (r: seq<Row>)
    ensures |r| == |rows|
  {
    seq(|rows|, i requires 0 <= i < |rows| => rows[i] + ProfileFields(p))
  }

  /** What scraping one page gives: its merged rows, or the failure's reason. */
  function ScrapeResult(page: Page): Result<seq<Row>, string> {
    match page
    case Failed(e) => Failure(e)
    case Loaded(tables, p) => Success(WithProfile(PageRows(tables), p))
  }

  /** `scrapePlayer`: build the slug, then locate the match table, extract its rows and merge the profile. */
  method ScrapePlayer(name: string, page: Page) returns (slug: string, result: Result<seq<Row>, string>)
    ensures slug == Slug(name)
    ensures result == ScrapeResult(page)
  {
    slug := Slug(name);
    match page
    case Failed(e) =>
      result := Failure(e);
    case Loaded(tables, p) =>
      var target := LocateTable(tables);
      var found := if target.Some? then ExtractRows(tables[target.value]) else [];
      result := Success(WithProfile(found, p));
  }

  // ---------------------------------------------------------------------
  // All players

  /** `{Player: name, ...r}`. */
  function Tagged(name: string, r: Row): Row {
    map["Player" := name] + r
  }

  function TagAll(name: string, rows: seq<Row>): (r: seq<Row>)
    ensures |r| == |rows|
  {
    seq(|rows|, i requires 0 <= i < |rows| => Tagged(name, rows[i]))
  }

  /** The rows one player adds: nothing when its scrape failed. */
  function Contribution(name: string, result: Result<seq<Row>, string>): seq<Row> {
    match result
    case Failure(_) => []
    case Success(rows) => TagAll(name, rows)
  }

  /** The blocks concatenated in order. */
  function Flatten<T>(blocks: seq<seq<T>>): seq<T>
    decreases |blocks|
  {
    if blocks == [] then [] else Flatten(blocks[..|blocks| - 1]) + blocks[|blocks| - 1]
  }

  function Contributions(players: seq<string>, results: seq<Result<seq<Row>, string>>): (r: seq<seq<Row>>)
    requires |results| == |players|
    ensures |r| == |players|
  {
    seq(|players|, i requires 0 <= i < |players| => Contribution(players[i], results[i]))
  }

  /** The rows collected over all players, in player order, from what each player's scrape gave. */
  function AllRows(players: seq<string>, results: seq<Result<seq<Row>, string>>): seq<Row>
    requires |results| == |players|
  {
    Flatten(Contributions(players, results))
  }

  function Results(pages: seq<Page>): (r: seq<Result<seq<Row>, string>>)
    ensures |r| == |pages|
  {
    seq(|pages|, i requires 0 <= i < |pages| => ScrapeResult(pages[i]))
  }

  function Slugs(players: seq<string>): (r: seq<string>)
    ensures |r| == |players|
  {
    seq(|players|, i requires 0 <= i < |players| => Slug(players[i]))
  }

  /**
   * The per-player loop: one navigation per player in order, the player's rows
   * appended one by one, a failing player skipped without stopping the loop.
   */
  method Collect(players: seq<string>, pages: seq<Page>) returns (allRows: seq<Row>, slugs: seq<string>)
    requires |pages| == |players|
    ensures allRows == AllRows(players, Results(pages))
    ensures slugs == Slugs(players)
  {
    ghost var results := Results(pages);
    ghost var blocks := Contributions(players, results);
    allRows, slugs := [], [];
    for k := 0 to |players|
      invariant allRows == Flatten(blocks[..k])
      invariant slugs == Slugs(players[..k])
    {
      var slug, result := ScrapePlayer(players[k], pages[k]);
      assert result == results[k];
      slugs := slugs + [slug];
      if result.Success? {
        allRows := AppendTagged(allRows, players[k], result.value);
      }
      FlattenStep(blocks, k);
      SlugsStep(players, k);
    }
    assert blocks[..|players|] == blocks;
    assert players[..|players|] == players;
  }

  lemma FlattenStep<T>(blocks: seq<seq<T>>, k: nat)
    requires k < |blocks|
    ensures Flatten(blocks[..k + 1]) == Flatten(blocks[..k]) + blocks[k]
  {
    assert blocks[..k + 1][..k] == blocks[..k];
  }

  lemma SlugsStep(players: seq<string>, k: nat)
    requires k < |players|
    ensures Slugs(players[..k + 1]) == Slugs(players[..k]) + [Slug(players[k])]
  {
  }

  /** The inner loop of the per-player loop: push each of a player's rows, tagged with the player's name. */
  method AppendTagged(allRows: seq<Row>, name: string, rows: seq<Row>) returns (out: seq<Row>)
    ensures out == allRows + TagAll(name, rows)
  {
    out := allRows;
    for j := 0 to |rows|
      invariant out == allRows + TagAll(name, rows[..j])
    {
      assert TagAll(name, rows[..j + 1]) == TagAll(name, rows[..j]) + [Tagged(name, rows[j])];
      out := out + [Tagged(name, rows[j])];
    }
    assert rows[..|rows|] == rows;
  }

  // ---------------------------------------------------------------------
  // CSV text

  /** The twelve output columns, in order. */
  const CsvHeaders: seq<string> :=
    ["Player", "Age", "Plays", "Date", "Tournament", "Rk", "vRk", "DR", "A%", "DF%", "BPSvd", "Opponent"]

  /** `row[h]`: undefined when the key is missing. */
  function Lookup(row: Row, h: string): Option<string> {
    if h in row then Some(row[h]) else None
  }

  function HeaderLine(): string {
    Join(',', seq(|CsvHeaders|, i requires 0 <= i < |CsvHeaders| => EscapeCSV(Some(CsvHeaders[i]))))
  }

  function RowLine(row: Row): string {
    Join(',', seq(|CsvHeaders|, i requires 0 <= i < |CsvHeaders| => EscapeCSV(Lookup(row, CsvHeaders[i]))))
  }

  /** One line per row, in order. */
  function RowLines(rows: seq<Row>): seq<string> {
    if rows == [] then [] else [RowLine(rows[0])] + RowLines(rows[1..])
  }

  /** The header line, then one line per row, joined with line feeds. */
  function CsvText(rows: seq<Row>): string {
    Join('\n', [HeaderLine()] + RowLines(rows))
  }

  /** The twelve values a row is written with, a missing key giving "". */
  function Fields(row: Row): (r: seq<string>)
    ensures |r| == |CsvHeaders|
  {
    seq(|CsvHeaders|, i requires 0 <= i < |CsvHeaders| => if CsvHeaders[i] in row then row[CsvHeaders[i]] else "")
  }

  // ---------------------------------------------------------------------
  // Running the tool

  /** The errors that end the run before any page is visited. */
  datatype Fatal = UsageError | NoPlayers

  /** What a run writes: the output path, the CSV text, and the slug of every page it visits. */
  datatype Output = Output(path: string, csv: string, slugs: seq<string>)

  /** The second argument, unless it is missing or empty. */
  function OutputPath(args: seq<string>): string {
    if |args| >= 2 && args[1] != "" then args[1] else "output.csv"
  }

  /**
   * `main`, given the command-line arguments after the script name, the lines
   * of the players file, and what each player's page turns out to be.
   */
  method Run(args: seq<string>, lines: seq<string>, pages: seq<Page>) returns (r: Result<Output, Fatal>)
    requires |pages| == |PlayerList(lines)|
    ensures |args| == 0 || args[0] == "" ==> r == Failure(UsageError)
    ensures |args| > 0 && args[0] != "" && PlayerList(lines) == [] ==> r == Failure(NoPlayers)
    ensures |args| > 0 && args[0] != "" && PlayerList(lines) != [] ==>
      r == Success(Output(OutputPath(args), CsvText(AllRows(PlayerList(lines), Results(pages))), Slugs(PlayerList(lines))))
  {
    if |args| == 0 || args[0] == "" {
      return Failure(UsageError);
    }
    var outPath := OutputPath(args);
    var players := ReadPlayers(lines);
    if |players| == 0 {
      return Failure(NoPlayers);
    }
    var allRows, slugs := Collect(players, pages);
    r := Success(Output(outPath, CsvText(allRows), slugs));
  }

  // ---------------------------------------------------------------------
  // Properties

  /** Only the first space goes: putting a space back at the first space's position gives the name back. */
  lemma SlugRemovesFirstSpace(name: string)
    ensures ' ' !in name ==> Slug(name) == name
    ensures ' ' in name ==> var i := IndexOf(name, ' ');
      ' ' !in Slug(name)[..i] && Slug(name)[..i] + " " + Slug(name)[i..] == name
    ensures ' ' in name ==> multiset(Slug(name))[' '] == multiset(name)[' '] - 1
  {
    if ' ' in name {
      var i := IndexOf(name, ' ');
      var s := Slug(name);
      assert s[..i] == name[..i];
      assert s[i..] == name[i + 1..];
      assert name == name[..i] + [name[i]] + name[i + 1..];
      assert multiset(name) == multiset(name[..i]) + multiset{' '} + multiset(name[i + 1..]);
    }
  }

  /** A name with two spaces keeps the second one. */
  lemma SlugKeepsLaterSpaces(first: string, middle: string, last: string)
    requires ' ' !in first
    ensures Slug(first + " " + middle + " " + last) == first + middle + " " + last
  {
    var name := first + " " + middle + " " + last;
    assert name[|first|] == ' ';
    var i := IndexOf(name, ' ');
    assert ' ' in name;
    assert i <= |first|;
    assert i == |first|;
    assert name[..|first|] == first;
    assert name[|first| + 1..] == middle + " " + last;
  }

  /** The keys every collected row has. */
  const RowKeys: set<string> := {"Player", "Age", "Plays"} + RecordKeys

  /** Merging keeps each record's fields and sets Age and Plays from the profile. */
  lemma WithProfileRows(recs: seq<Row>, p: Profile)
    ensures forall i :: 0 <= i < |recs| ==>
      var row := WithProfile(recs, p)[i];
      && row.Keys == recs[i].Keys + {"Age", "Plays"}
      && row["Age"] == p.age && row["Plays"] == p.plays
      && (forall k :: k in recs[i] && k != "Age" && k != "Plays" ==> row[k] == recs[i][k])
  {
    forall i | 0 <= i < |recs|
      ensures var row := WithProfile(recs, p)[i];
        && row.Keys == recs[i].Keys + {"Age", "Plays"}
        && row["Age"] == p.age && row["Plays"] == p.plays
        && (forall k :: k in recs[i] && k != "Age" && k != "Plays" ==> row[k] == recs[i][k])
    {
      var fields := ProfileFields(p);
      assert fields.Keys == {"Age", "Plays"};
      assert WithProfile(recs, p)[i] == recs[i] + fields;
    }
  }

  /** A loaded page without a match table gives no rows, and no failure. */
  lemma ScrapeResultRows(page: Page)
    ensures page.Loaded? && FirstMatchTable(page.tables).None? ==> ScrapeResult(page) == Success([])
  {
  }

  /** Every record of a page has the nine record keys and a non-empty Date. */
  lemma PageRowsShape(tables: seq<Table>)
    ensures forall r :: r in PageRows(tables) ==> r.Keys == RecordKeys && r["Date"] != ""
  {
    match FirstMatchTable(tables)
    case None =>
    case Some(i) => ExtractShape(tables[i].body, ColumnsOf(Labels(tables[i])));
  }

  /** Every row a scrape gives has the record keys plus Age and Plays, and a non-empty Date. */
  lemma ScrapeResultShape(page: Page)
    ensures ScrapeResult(page).Success? ==>
      forall r :: r in ScrapeResult(page).value ==> r.Keys == RecordKeys + {"Age", "Plays"} && r["Date"] != ""
  {
    if page.Loaded? {
      var recs := PageRows(page.tables);
      PageRowsShape(page.tables);
      MergedShape(recs, page.profile);
    }
  }

  lemma MergedShape(recs: seq<Row>, p: Profile)
    requires forall r :: r in recs ==> r.Keys == RecordKeys && r["Date"] != ""
    ensures forall r :: r in WithProfile(recs, p) ==> r.Keys == RecordKeys + {"Age", "Plays"} && r["Date"] != ""
  {
    WithProfileRows(recs, p);
    var rows := WithProfile(recs, p);
    forall r | r in rows ensures r.Keys == RecordKeys + {"Age", "Plays"} && r["Date"] != "" {
      var i :| 0 <= i < |rows| && rows[i] == r;
      assert recs[i] in recs;
    }
  }

  /** A player's rows are that player's records, each with Player set to the name unless the record has its own. */
  lemma ContributionRows(name: string, result: Result<seq<Row>, string>)
    ensures result.Failure? ==> Contribution(name, result) == []
    ensures result.Success? ==> |Contribution(name, result)| == |result.value|
    ensures result.Success? ==> forall i :: 0 <= i < |result.value| ==>
      var row := Contribution(name, result)[i];
      && row.Keys == result.value[i].Keys + {"Player"}
      && row["Player"] == (if "Player" in result.value[i] then result.value[i]["Player"] else name)
      && (forall k :: k in result.value[i] ==> row[k] == result.value[i][k])
  {
  }

  lemma {:induction false} FlattenAppend<T>(a: seq<seq<T>>, b: seq<seq<T>>)
    ensures Flatten(a + b) == Flatten(a) + Flatten(b)
    decreases |b|
  {
    if b == [] {
      assert a + b == a;
    } else {
      var n := |b| - 1;
      assert (a + b)[..|a| + n] == a + b[..n];
      FlattenAppend(a, b[..n]);
    }
  }

  /** The collected rows of two groups of players are those of each group, in order. */
  lemma AllRowsAppend(p1: seq<string>, r1: seq<Result<seq<Row>, string>>, p2: seq<string>, r2: seq<Result<seq<Row>, string>>)
    requires |r1| == |p1| && |r2| == |p2|
    ensures AllRows(p1 + p2, r1 + r2) == AllRows(p1, r1) + AllRows(p2, r2)
  {
    assert Contributions(p1 + p2, r1 + r2) == Contributions(p1, r1) + Contributions(p2, r2);
    FlattenAppend(Contributions(p1, r1), Contributions(p2, r2));
  }

  /** A player whose scrape fails changes nothing for the others: the rows are those of the run without that player. */
  lemma FailedPlayerSkipped(players: seq<string>, results: seq<Result<seq<Row>, string>>, k: nat)
    requires |results| == |players| && k < |players| && results[k].Failure?
    ensures AllRows(players, results) == AllRows(players[..k] + players[k + 1..], results[..k] + results[k + 1..])
  {
    var before, after := players[..k], players[k + 1..];
    var rBefore, rAfter := results[..k], results[k + 1..];
    assert players == before + [players[k]] + after;
    assert results == rBefore + [results[k]] + rAfter;
    AllRowsAppend(before + [players[k]], rBefore + [results[k]], after, rAfter);
    AllRowsAppend(before, rBefore, [players[k]], [results[k]]);
    AllRowsAppend(before, rBefore, after, rAfter);
    assert Contributions([players[k]], [results[k]]) == [[]];
    var single: seq<seq<Row>> := [[]];
    assert Flatten(single) == Flatten(single[..0]) + [];
  }

  /** Every row in a flattening comes from one of the blocks. */
  lemma {:induction false} InFlatten<T>(blocks: seq<seq<T>>, x: T)
    requires x in Flatten(blocks)
    ensures exists i :: 0 <= i < |blocks| && x in blocks[i]
    decreases |blocks|
  {
    var n := |blocks| - 1;
    if x in Flatten(blocks[..n]) {
      InFlatten(blocks[..n], x);
      var i :| 0 <= i < n && x in blocks[..n][i];
      assert x in blocks[i];
    } else {
      assert x in blocks[n];
    }
  }

  /** Tagging a merged record gives a row with all twelve keys and the player's name. */
  lemma TaggedShape(name: string, r: Row)
    requires r.Keys == RecordKeys + {"Age", "Plays"} && r["Date"] != ""
    ensures Tagged(name, r).Keys == RowKeys && Tagged(name, r)["Date"] != "" && Tagged(name, r)["Player"] == name
  {
  }

  /** Every row a player adds has all twelve keys, a non-empty Date, and that player's name. */
  lemma ContributionShape(name: string, result: Result<seq<Row>, string>)
    requires result.Success? ==> forall r :: r in result.value ==> r.Keys == RecordKeys + {"Age", "Plays"} && r["Date"] != ""
    ensures forall r :: r in Contribution(name, result) ==> r.Keys == RowKeys && r["Date"] != "" && r["Player"] == name
  {
  }

  /** Every collected row has all twelve keys, a non-empty Date, and one of the players as its Player. */
  lemma AllRowsShape(players: seq<string>, pages: seq<Page>)
    requires |pages| == |players|
    ensures forall r :: r in AllRows(players, Results(pages)) ==> r.Keys == RowKeys && r["Date"] != "" && r["Player"] in players
  {
    var blocks := Contributions(players, Results(pages));
    forall r: Row | r in Flatten(blocks) ensures r.Keys == RowKeys && r["Date"] != "" && r["Player"] in players {
      InFlatten(blocks, r);
      var i :| 0 <= i < |blocks| && r in blocks[i];
      assert blocks[i] == Contribution(players[i], ScrapeResult(pages[i]));
      ScrapeResultShape(pages[i]);
      ContributionShape(players[i], ScrapeResult(pages[i]));
    }
  }

  /** Every output column is one of the row keys and every row key is an output column. */
  lemma HeadersAreRowKeys()
    ensures forall h :: h in CsvHeaders <==> h in RowKeys
  {
  }

  /** The values of each row, in order. */
  function FieldRecords(rows: seq<Row>): (r: seq<seq<string>>)
    ensures |r| == |rows|
  {
    if rows == [] then [] else [Fields(rows[0])] + FieldRecords(rows[1..])
  }

  /** The records the CSV text is made of: the header labels, then the values of each row. */
  function CsvRecords(rows: seq<Row>): (r: seq<seq<string>>)
    ensures |r| == |rows| + 1
  {
    [CsvHeaders] + FieldRecords(rows)
  }

  lemma HeaderLineIsRecord()
    ensures HeaderLine() == RecordLine(CsvHeaders)
  {
    assert EscapeAll(CsvHeaders) == seq(|CsvHeaders|, i requires 0 <= i < |CsvHeaders| => EscapeCSV(Some(CsvHeaders[i])));
  }

  /** A missing key is written exactly as an empty value. */
  lemma RowLineIsRecord(row: Row)
    ensures RowLine(row) == RecordLine(Fields(row))
  {
    assert EscapeAll(Fields(row)) == seq(|CsvHeaders|, j requires 0 <= j < |CsvHeaders| => EscapeCSV(Lookup(row, CsvHeaders[j])));
  }

  lemma {:induction false} RowLinesAreRecordLines(rows: seq<Row>)
    ensures RowLines(rows) == RecordLines(FieldRecords(rows))
  {
    if rows != [] {
      RowLineIsRecord(rows[0]);
      RowLinesAreRecordLines(rows[1..]);
      assert FieldRecords(rows)[1..] == FieldRecords(rows[1..]);
    }
  }

  lemma {:induction false} FieldRecordsWidth(rows: seq<Row>)
    ensures forall i :: 0 <= i < |rows| ==> |FieldRecords(rows)[i]| == |CsvHeaders|
  {
    if rows != [] {
      FieldRecordsWidth(rows[1..]);
      assert forall i :: 1 <= i < |rows| ==> FieldRecords(rows)[i] == FieldRecords(rows[1..])[i - 1];
    }
  }

  lemma CsvTextIsDocument(rows: seq<Row>)
    ensures CsvText(rows) == DocumentText(CsvRecords(rows))
  {
    var records := CsvRecords(rows);
    HeaderLineIsRecord();
    RowLinesAreRecordLines(rows);
    assert records[1..] == FieldRecords(rows);
    assert RecordLines(records) == [RecordLine(CsvHeaders)] + RecordLines(FieldRecords(rows));
  }

  /** The CSV text reads back as the header record followed by one record of twelve values per row. */
  lemma CsvRoundTrip(rows: seq<Row>)
    ensures ReadDocument(CsvText(rows)) == Some(CsvRecords(rows))
  {
    CsvTextIsDocument(rows);
    FieldRecordsWidth(rows);
    DocumentRoundTrip(CsvRecords(rows));
  }

  /** The CSV text never ends with a line feed. */
  lemma CsvNoTrailingLineFeed(rows: seq<Row>)
    ensures var t := CsvText(rows); t != [] && t[|t| - 1] != '\n'
  {
    CsvTextIsDocument(rows);
    FieldRecordsWidth(rows);
    NoTrailingLineFeed(CsvRecords(rows));
  }

  /** When every player's scrape fails, the output is the header line alone. */
  lemma AllFailedHeaderOnly(players: seq<string>, results: seq<Result<seq<Row>, string>>)
    requires |results| == |players|
    requires forall i :: 0 <= i < |results| ==> results[i].Failure?
    ensures AllRows(players, results) == []
    ensures CsvText(AllRows(players, results)) == HeaderLine()
  {
    AllEmptyFlatten(Contributions(players, results));
  }

  lemma {:induction false} AllEmptyFlatten<T>(blocks: seq<seq<T>>)
    requires forall i :: 0 <= i < |blocks| ==> blocks[i] == []
    ensures Flatten(blocks) == []
    decreases |blocks|
  {
    if blocks != [] {
      AllEmptyFlatten(blocks[..|blocks| - 1]);
    }
  }
}
