# Tennis Abstract match-history scraper, modelled in Dafny

`scrape-tennisabstract.js` reads a list of player names. For each player it opens
the player's Tennis Abstract profile page and locates the match-history table:
the first table whose column labels include both "Date" and "Score". It turns
every body row of that table into a record of nine fields (Date, Tournament,
Rk, vRk, DR, A%, DF%, BPSvd, Opponent), drops the records without a Date, and
merges each one with the player's Age and Plays profile fields. All rows are
then tagged with the player's name and written as one CSV file with twelve
columns.

The model covers the deterministic core of that run:

- `Text`: the JavaScript primitives it relies on. These are `String.prototype.trim`
  with the ECMAScript white-space set, `Array.prototype.indexOf` and
  `Array.prototype.join`.
- `Csv`: `escapeCSV` and the assembly of fields into records and documents.
  A CSV reader is the partner of the writer. The round trip is proved for a
  field, a record and a whole document. Like the writer, this reader keeps a
  bare carriage return inside an unquoted field as data. A reader that follows
  RFC 4180 would end the record there, so the round trips hold for this
  reader, not for every CSV reader.
- `Players`: `readPlayers` over the lines of the players file. The loop is a
  method, and it is proved equal to a specification function whose
  properties are proved separately.
- `Tables`: the in-page extraction. The page's DOM is a snapshot of its
  tables, made of header labels and body cells with their optional link text.
  This module covers the locator loop, the column positions, the opponent
  column, the per-cell reads and the two filters.
- `Scrape`: the rest of the run.
  - `scrapePlayer`: the URL slug, the merge with the profile, and a failure
    path.
  - The per-player loop with its `try`/`catch`.
  - The CSV text.
  - `main`'s argument handling and early exits.

Rows are `map<string, string>`. JavaScript's object spread is right-biased, and
so is Dafny's map union: in `{...r, ...profile}` the profile's fields win, and
in `{Player: player, ...r}` the row's fields win. A missing key reads as
`undefined`, which is modelled as `None` and written as the empty field.

Each player's page is an input to the model, of type `Page`:

- `Loaded(tables, profile)`: the snapshot that the in-page evaluation sees.
- `Failed(reason)`: navigation, the wait for the match table or the evaluation
  threw.

`Run` and `Collect` take one `Page` per player, in player order. That is why
they require as many pages as players. The slugs they return stand for the
URLs the run visits, one per player and in order.

The URL slug is built with `replace(" ", "")`. With a string pattern, that
call removes only the FIRST space, not every space. `Scrape.Slug` does the
same, and `Scrape.SlugKeepsLaterSpaces` proves that a second space stays.

## Model

| member | source | states |
|---|---|---|
| Csv.DoubleQuotes | scrape-tennisabstract.js:16 | Every double quote is doubled, as `replace(/"/g, '""')` does. The result is never shorter. `Csv.QuotedRoundTrip` proves that reading it back undoes the doubling. |
| Csv.EscapeField | scrape-tennisabstract.js:14-18 | A value without a double quote, comma or line feed is unchanged. Otherwise the result is at least two longer and is wrapped in double quotes. |
| Csv.EscapeCSV | scrape-tennisabstract.js:12-19 | `null`/`undefined` becomes the empty field. A value that needs no quoting comes out unchanged. |
| Csv.RecordLine | scrape-tennisabstract.js:194-196 | A record is its escaped fields joined with commas. `Csv.RecordRoundTrip` proves that it reads back as those fields. |
| Csv.QuotedRoundTrip | scrape-tennisabstract.js:16 | Reading back a value with its quotes doubled and a closing quote gives the value and the text after it. |
| Csv.PlainRoundTrip | scrape-tennisabstract.js:18 | An unquoted value reads back up to the separator after it. |
| Csv.FieldRoundTrip | scrape-tennisabstract.js:12-19 | Every escaped value reads back as itself, whatever separator follows. |
| Csv.RecordRoundTrip | scrape-tennisabstract.js:194-196 | A line of escaped fields joined with commas reads back as exactly those fields. |
| Csv.DocumentRoundTrip | scrape-tennisabstract.js:194-198 | Record lines joined with line feeds read back as exactly those records. |
| Csv.RecordLineEnd | scrape-tennisabstract.js:196 | A record of two or more fields never ends with a line feed, even when its last value contains one. |
| Csv.NoTrailingLineFeed | scrape-tennisabstract.js:198 | A document whose records have at least two fields has no trailing line feed. |
| Csv.QuotedVerbatim | scrape-tennisabstract.js:15-16 | A value that needs quoting but has no double quote is only wrapped in quotes. |
| Csv.CommaQuoted | scrape-tennisabstract.js:15-16 | `Smith, J.` is written as `"Smith, J."`. |
| Csv.QuoteDoubled | scrape-tennisabstract.js:15-16 | A trailing double quote is doubled and the value is quoted. |
| Csv.LineFeedQuoted | scrape-tennisabstract.js:15-16 | A value containing a line feed is quoted. |
| Csv.CarriageReturnNotQuoted | scrape-tennisabstract.js:15 | A carriage return alone does not cause quoting. |
| Text.Trim | scrape-tennisabstract.js:28 | `String.prototype.trim`: the leading white space is dropped, then the trailing white space. `Text.TrimKeepsMiddle` states what the result is. |
| Text.TrimStartSpec | scrape-tennisabstract.js:28 | Trimming the start removes exactly the leading white space and keeps a suffix. |
| Text.TrimEndSpec | scrape-tennisabstract.js:28 | Trimming the end removes exactly the trailing white space and keeps a prefix. |
| Text.TrimSpec | scrape-tennisabstract.js:28 | A trimmed line neither starts nor ends with white space. It is empty exactly when the line is blank. |
| Text.TrimKeepsMiddle | scrape-tennisabstract.js:28 | A trimmed line is the slice of the line that starts where the leading white space ends. Everything before and after that slice is white space. |
| Text.TrimIdempotent | scrape-tennisabstract.js:28 | Trimming twice is trimming once. |
| Text.IndexOf | scrape-tennisabstract.js:86 | The result is -1 exactly when the label is absent. Otherwise it is the first position holding the label. |
| Text.JoinEndsWithLastPart | scrape-tennisabstract.js:194-198 | A join ends with the last character of its last part. |
| Players.PlayerList | scrape-tennisabstract.js:27-30 | The names the lines yield: each line trimmed, blank ones skipped, in order. The `Players` lemmas below state its properties. |
| Players.ReadPlayers | scrape-tennisabstract.js:21-32 | The loop yields exactly `PlayerList(lines)`: the trimmed non-blank lines, in order. |
| Players.PlayerListAppend | scrape-tennisabstract.js:27-30 | The names of two consecutive blocks of lines are the names of each block, in order. |
| Players.PlayerListClean | scrape-tennisabstract.js:28-29 | Every name is non-empty and already trimmed. |
| Players.PlayerListEmpty | scrape-tennisabstract.js:27-30 | The list is empty exactly when every line is blank, in both directions. |
| Players.EmptyAllSkipped | scrape-tennisabstract.js:29 | An empty list means every line was blank. |
| Players.AllSkippedEmpty | scrape-tennisabstract.js:29 | Only blank lines give an empty list. |
| Players.PlayerListKeepsDuplicates | scrape-tennisabstract.js:27-30 | A name occurs once per line that trims to it, so there is no deduplication. |
| Players.BlankLineSkipped | scrape-tennisabstract.js:29 | A blank line between two names is skipped. |
| Tables.Labels | scrape-tennisabstract.js:66-72 | `getHeaders`: the `thead` header texts when there is at least one, otherwise the header texts of all rows. |
| Tables.IsMatchTable | scrape-tennisabstract.js:78 | A table matches when its labels include both "Date" and "Score". |
| Tables.FirstMatchTable | scrape-tennisabstract.js:74-83 | It returns the first table whose labels contain "Date" and "Score". It returns none exactly when no table has both. |
| Tables.LocateTable | scrape-tennisabstract.js:74-83 | The early-exit loop returns exactly `FirstMatchTable`. |
| Tables.ColumnsOf | scrape-tennisabstract.js:85-100 | `idx` for every labelled column, and the opponent column. `Tables.ColumnsAtFirstOccurrence` and `Tables.OpponentColumn` state what they are. |
| Tables.OpponentIndex | scrape-tennisabstract.js:99-100 | `oppIdx`: one past the earlier of the vRk and Score columns, or -1 unless both exist. `Tables.OpponentColumn` states the bounds. |
| Tables.CellText | scrape-tennisabstract.js:109-110 | `get`: the cell's text, or "" when the index is negative or past the last cell. |
| Tables.OpponentText | scrape-tennisabstract.js:112-118 | The opponent cell's link text when it has a link, else its own text, else "" when the column is out of range. `Tables.OpponentOutOfRange` and `Tables.OpponentPrefersLink` state it. |
| Tables.RowRecord | scrape-tennisabstract.js:120-130 | The nine-field record of one body row. `Tables.RowRecordShape`, `Tables.RecordReadsColumn` and `Tables.PresentColumnReadsCell` state it. |
| Tables.WithCells | scrape-tennisabstract.js:102-104 | The body rows that have at least one `td`, in order. |
| Tables.Dated | scrape-tennisabstract.js:132 | The records whose Date is non-empty, in order. |
| Tables.ExtractRows | scrape-tennisabstract.js:102-132 | The records of a table's body rows under its own column layout. `Tables.ExtractAppend` and `Tables.ExtractOne` characterise it row by row. |
| Tables.ColumnsAtFirstOccurrence | scrape-tennisabstract.js:85-96 | Each of the nine labelled columns (Date, Rk, DR, A%, DF%, BPSvd, Tournament, vRk, Score) is -1 exactly when its label is missing. Otherwise it is the label's first occurrence. |
| Tables.OpponentColumn | scrape-tennisabstract.js:98-100 | The opponent column exists exactly when both "vRk" and "Score" are labels. It is then one past the earlier of the two, and no later than the other. |
| Tables.OpponentOutOfRange | scrape-tennisabstract.js:112-113 | A missing opponent column, or one past the row's end, gives an empty opponent. |
| Tables.OpponentPrefersLink | scrape-tennisabstract.js:114-117 | A linked opponent cell gives the link's text. An unlinked one gives the cell's own text. |
| Tables.RecordReadsColumn | scrape-tennisabstract.js:109-110 | Every field but Opponent is the text of its own column's cell. |
| Tables.ColumnForLabel | scrape-tennisabstract.js:86-96 | Each field's column is the first occurrence of its label. |
| Tables.MissingColumnReadsEmpty | scrape-tennisabstract.js:109-128 | A field whose label is missing is "" in every row. |
| Tables.MissingOpponentReadsEmpty | scrape-tennisabstract.js:99-118 | Without both "vRk" and "Score", every opponent is "". |
| Tables.PresentColumnReadsCell | scrape-tennisabstract.js:109-128 | A present label reads its cell's text, or "" when the row is too short. |
| Tables.RowRecordShape | scrape-tennisabstract.js:120-130 | Every record has exactly the nine keys, and its Date is read from the Date column. |
| Tables.ExtractAppend | scrape-tennisabstract.js:102-132 | Extraction works row by row: two blocks of rows give the records of each block, in order. |
| Tables.ExtractOne | scrape-tennisabstract.js:102-132 | A row gives its record exactly when it has a `td` and a non-empty Date. |
| Tables.ExtractShape | scrape-tennisabstract.js:120-132 | Every extracted record has the nine keys and a non-empty Date. |
| Tables.ExampleColumns | scrape-tennisabstract.js:85-100 | For labels Date, vRk, Opponent, Score, the column layout is computed completely. |
| Tables.LinkedOpponentExample | scrape-tennisabstract.js:98-132 | An opponent cell with a link and a seeding note gives the link's text. |
| Scrape.ScrapePlayer | scrape-tennisabstract.js:34-136 | It gives the slug of the name. On a failed page it gives the failure. Otherwise it gives the first match table's records merged with the profile. |
| Scrape.Slug | scrape-tennisabstract.js:36 | The name with its first space removed. `Scrape.SlugRemovesFirstSpace` and `Scrape.SlugKeepsLaterSpaces` state it. |
| Scrape.SlugRemovesFirstSpace | scrape-tennisabstract.js:35-37 | A name without a space is unchanged. Otherwise a space put back at the first space's position gives the name, and the slug has exactly one space fewer. |
| Scrape.SlugKeepsLaterSpaces | scrape-tennisabstract.js:36 | Of two spaces, only the first is removed. |
| Scrape.WithProfile | scrape-tennisabstract.js:135 | `{...r, ...profile}` for every record, in order. `Scrape.WithProfileRows` states the merged fields. |
| Scrape.WithProfileRows | scrape-tennisabstract.js:135 | A merged row has the record's keys plus Age and Plays. Age and Plays come from the profile, and every other field is kept. |
| Scrape.ScrapeResultRows | scrape-tennisabstract.js:83-135 | A page without a match table gives no rows and no failure. |
| Scrape.PageRowsShape | scrape-tennisabstract.js:83-132 | Every record of a page has the nine keys and a non-empty Date. |
| Scrape.MergedShape | scrape-tennisabstract.js:135 | Merging adds exactly Age and Plays and keeps a non-empty Date. |
| Scrape.ScrapeResultShape | scrape-tennisabstract.js:65-135 | Every row a scrape gives has the nine keys plus Age and Plays, and a non-empty Date. |
| Scrape.Collect | scrape-tennisabstract.js:161-175 | The loop gathers each player's tagged rows, in player order, and skips the players whose scrape failed. It visits one slug per player. |
| Scrape.AppendTagged | scrape-tennisabstract.js:167-169 | The inner loop appends each row tagged with the player, in order. |
| Scrape.Tagged | scrape-tennisabstract.js:168 | `{Player: player, ...r}`. `Scrape.ContributionRows` and `Scrape.TaggedShape` state its fields. |
| Scrape.ContributionRows | scrape-tennisabstract.js:164-174 | A failed player adds nothing. Otherwise the player adds one tagged row per row, keeping every field and adding Player. |
| Scrape.TaggedShape | scrape-tennisabstract.js:168 | A tagged merged record has all twelve output keys, and its Player is the player's name. |
| Scrape.ContributionShape | scrape-tennisabstract.js:163-169 | Every row a player adds has the twelve keys, a non-empty Date and that player's name. |
| Scrape.AllRowsAppend | scrape-tennisabstract.js:163-175 | The rows of two groups of players are those of each group, in order. |
| Scrape.FailedPlayerSkipped | scrape-tennisabstract.js:172-174 | A failing player leaves the output as if it were not in the list. |
| Scrape.AllRowsShape | scrape-tennisabstract.js:163-175 | Every collected row has all twelve keys, a non-empty Date, and one of the players as Player. |
| Scrape.HeadersAreRowKeys | scrape-tennisabstract.js:180-193 | The twelve output columns are exactly the keys every collected row has. |
| Scrape.HeaderLine | scrape-tennisabstract.js:194 | The twelve labels escaped and joined with commas. |
| Scrape.RowLine | scrape-tennisabstract.js:196 | A row's twelve values escaped and joined with commas, a missing key giving "". |
| Scrape.CsvText | scrape-tennisabstract.js:194-198 | The header line followed by one line per row, joined with line feeds. `Scrape.CsvRoundTrip` and `Scrape.CsvNoTrailingLineFeed` state its properties. |
| Scrape.HeaderLineIsRecord | scrape-tennisabstract.js:194 | The header line is the CSV record of the twelve labels. |
| Scrape.RowLineIsRecord | scrape-tennisabstract.js:196 | A row line is the CSV record of the row's twelve values, with a missing key written as an empty value. |
| Scrape.CsvTextIsDocument | scrape-tennisabstract.js:194-198 | The CSV text is the document of the header record followed by one record per row. |
| Scrape.CsvRoundTrip | scrape-tennisabstract.js:194-198 | The CSV text reads back as the header labels followed by each row's twelve values. |
| Scrape.CsvNoTrailingLineFeed | scrape-tennisabstract.js:194-198 | The CSV text never ends with a line feed. |
| Scrape.AllFailedHeaderOnly | scrape-tennisabstract.js:161-198 | When every player fails, no rows are collected and the CSV is the header line alone. |
| Scrape.OutputPath | scrape-tennisabstract.js:146 | The second argument unless it is missing or empty, else `output.csv`. |
| Scrape.Run | scrape-tennisabstract.js:138-198 | A missing or empty players-file argument is a usage error. A list with no names is the "no names" error. Otherwise the output goes to the second argument or `output.csv`, and the CSV is that of all collected rows. |

## Left out

- Browser automation is not modelled: launching, the viewport, navigation with its 90-second bound, and closing. A page that fails to load or to evaluate is a `Page.Failed` given to the model.
- The 60-second wait for the match table is not modelled.
  - If no match table appears, the wait throws, and the player is skipped as a `Failed` page.
  - The wait reads labels from `thead tr th, tr th` together. The locator reads `thead` labels first, and the labels of all rows only as a fallback.
  - A page that passes the wait but has no match table for the locator is a `Loaded` page with no match table. It adds no rows, just like a failed page.
- Querying the DOM is not modelled. A table is given as its label texts and its body cells, with every text already trimmed.
- The Age and Plays regular expressions over the page text are not modelled. The profile is a given pair of strings.
- `encodeURIComponent` and the URL prefix are not modelled. The model stops at the slug that goes into the URL.
- Reading the players file and splitting it into lines is not modelled. `readline` with `crlfDelay: Infinity` is given as the sequence of lines it yields.
- Writing the output file is not modelled. `Run` returns the path and the text that would be written.
- Console logging, the 1200 ms delay after each player whose scrape succeeded, the process exit codes, and an error thrown outside the per-player `try` (browser launch, file I/O) are not modelled.
- `escapeCSV` applies `String(value)` to its argument. Every value the scraper passes is a string or `undefined`, so the model takes `Option<string>`.
