# retrievor: the match extractor, modelled in Dafny

retrievor collects football results from a scores site, one page per day,
and writes them out as CSV. All of its logic lives in `match.go`. The model
covers four parts of it:

- **Result fields.** `setDraw` and `setWinner` derive `Draw` and `WinnerID`
  from the scores and the team ids (module `Matches`).
- **The page scan.** `parseMatches` folds left to right over the children of
  the page's container (module `Extract`). The fold carries the competition
  id and name. A named anchor sets the id. An `h4` sets the name. A `div`
  whose class string contains `club-gamelist-match` emits one record:
  - its score text is trimmed, split on `-`, and each piece is trimmed and
    read with `strconv.Atoi`, with the error ignored;
  - its club links fill team 1 while the team 1 id is empty, and team 2
    after that.

  Modules `RowProps` and `ScanProps` hold the properties of this scan. The Go
  library calls the scan relies on are modelled as `GoStrings` (`TrimSpace`,
  `Split`, `Contains`) and `Numerals` (`Atoi` with the `ParseInt` and
  `ParseUint` it is defined by). `GoStrings.Join` is not called by the
  program: it is the model's inverse of `Split`. `Numerals` also holds the
  `%d` formatting the export uses.
- **The date loop** (module `Retrieve`):
  - `ParsePage` handles one day;
  - `ParseAllWithTimeRange` visits every day from start to end, inclusive
    and ascending, and stops at the first error;
  - `ParseAllWithStringRange` reads both bounds, then drops the loop's error.
- **The CSV export.** `ExportAsCSV` writes one line per record: eleven quoted
  fields joined by commas (module `Export`). A reader for such lines serves
  as the round-trip partner.

Modelling choices:

- **HTML as data.** The document is a sequence of `Node` values. Each node
  carries:
  - its tag and attributes;
  - its text;
  - the text of its score element;
  - its club elements, each with an optional link and a text.
- **Panics.** Go index panics become `None`:
  - `scores[1]` when the score text has no `-`;
  - `strings.Split(href, "/")[2]` when a link has fewer than three segments.

  A `None` propagates as `Panicked` through the date loop, because the
  program does not recover.
- **Days.** A day is an integer: day `d + 1` is the day after `d`.
- **Oracles.**
  - Fetching a day's page is the function parameter `fetch`.
  - Reading a date text is `parseDate`.
  - Printing a date in the CSV is `showDate`.
- **Page scanner.** The date loop takes the page scanner as a parameter,
  `scan`. The program's scanner is `Retrieve.PageMatches`: `parseMatches`
  starting from no records. `ScanProps.ParseMatchesAppends` and
  `Retrieve.ParsePageIsParseMatches` connect the two.

In these details the model follows the code:

- the `h4` text is taken untrimmed;
- the class test is a substring test on the raw class string, not class-list
  membership;
- an empty range (`start > end`) makes no page calls and returns no error;
- a malformed match row does not skip that row: it panics the whole run.

## Model

| member | source | states |
|---|---|---|
| Matches.SetDraw | match.go:57-59 | `Draw` becomes true exactly when the two scores are equal, and no other field changes |
| Matches.SetWinner | match.go:47-55 | on a non-draw the winner is team 1's id when team 1 scored strictly more and team 2's id otherwise; a draw keeps its winner; no other field changes |
| Matches.Settle | match.go:172-173 | `setDraw` then `setWinner` changes only the draw flag and the winner, keeps the winner on a draw, and on a fresh record yields consistent fields: a draw exactly on equal scores, no winner on a draw, otherwise the strictly higher-scoring team |
| Matches.WinnerNeedsDrawFirst | match.go:47-55 | the call order matters: `setWinner` alone on level scores with the draw flag unset names team 2 and leaves the record inconsistent, while `setDraw` first gives a consistent draw |
| Matches.NewMatch | match.go:142-145 | a fresh record carries the page date and the current competition, with empty teams, zero scores, no winner and no draw |
| GoStrings.TrimLeft | match.go:151 | the result is a suffix of the input, everything removed is white space, and the result does not start with white space |
| GoStrings.TrimRight | match.go:151 | the result is a prefix of the input, everything removed is white space, and the result does not end with white space |
| GoStrings.TrimSpace | match.go:151 | the trimmed score text neither starts nor ends with white space |
| GoStrings.TrimSpaceIsSlice | match.go:151 | the trimmed text is a slice of the input with only white space cut from either end |
| GoStrings.TrimSpaceKeepsOut | match.go:163-164 | trimming introduces no character the input lacks, so a hyphen-free piece stays hyphen-free |
| GoStrings.TrimSpaceIdempotent | match.go:151 | trimming already-trimmed text again changes nothing |
| GoStrings.TrimSpaceOfTrimmed | match.go:151 | text without white space at either end is left as it is |
| GoStrings.TrimSpaceOfPadded | match.go:163-164 | a single space on either side of a score piece is removed |
| GoStrings.Split | match.go:151 | splitting on a one-character separator gives one more piece than there are separators, and no piece contains the separator |
| GoStrings.JoinSplit | match.go:151 | joining the pieces back with the separator gives the original text |
| GoStrings.SplitWithoutSeparator | match.go:151 | text without the separator splits into itself alone |
| GoStrings.SplitFirstPiece | match.go:155 | the first piece ends at the first separator; the rest splits on its own |
| GoStrings.SplitJoin | match.go:155 | splitting undoes joining separator-free pieces |
| GoStrings.ContainsIffOccurs | match.go:148 | the class test holds exactly when the marker occurs at some position of the class string |
| Numerals.Clamp | match.go:163-164 | a value outside the 64-bit `int` range becomes the nearest bound; one inside is kept |
| Numerals.Atoi | match.go:163-164 | the score read is within the 64-bit `int` range, is never negative without a `-`, and is 0 for an empty piece or one that starts with neither a digit nor a sign |
| Numerals.ParseUint | match.go:163-164 | the unsigned reading `Atoi` relies on is within the `uint64` range; without an error the text is all digits and the value is theirs; a range error gives the `uint64` maximum and a syntax error 0; conversely a non-empty all-digit text within the `uint64` range reads without error as its value, leading zeros included |
| Numerals.ParseInt | match.go:163-164 | the signed reading is within the `int` range and is 0 on a syntax error |
| Numerals.Signed | match.go:163-164 | the sign step keeps a syntax error with value 0 and otherwise gives the signed magnitude clamped to the `int` range |
| Numerals.ParseUintRange | match.go:163-164 | the unsigned reading fails with a range error exactly when some all-digit prefix of the text already exceeds the `uint64` maximum, so the characters after it do not matter |
| Numerals.DigitsValuePrefix | match.go:163-164 | a prefix of a digit string never has a larger value than the whole |
| Numerals.AtoiOfDigits | match.go:163-164 | an optional sign followed by digits within the `uint64` range reads as the signed value of the digits, clamped to the `int` range, so `05` and `+5` read as 5 |
| Numerals.AtoiOverflow | match.go:163-164 | a leading digit run beyond the `uint64` range makes `Atoi` return the `int` maximum, or the minimum after a `-`, whatever follows it |
| Numerals.FormatNat | match.go:71 | `%d` of a natural number prints decimal digits with no leading zero |
| Numerals.FormatInt | match.go:71 | `%d` prints a leading `-` exactly for negative values, and no other `-` |
| Numerals.DigitsValueOfFormatNat | match.go:71 | the digits printed for a natural number read back as that number |
| Numerals.AtoiOfFormatInt | match.go:71 | `Atoi` reads back every 64-bit value printed by `%d` |
| Extract.ParseScores | match.go:150-164 | the score text yields scores exactly when its trimmed form contains a hyphen; both scores are then between 0 and the `int` maximum |
| Extract.ReadScore | match.go:163-164 | a trimmed piece read with `Atoi` is within the `int` range, and not negative when the piece has no hyphen |
| Extract.TeamId | match.go:154-159 | a link yields a team id exactly when it has at least two `/`, a missing link reading as empty; the id contains no `/` |
| Extract.AssignClubs | match.go:152-162 | the club loop succeeds exactly when every club link yields a team id, and never replaces a team 1 that is already set |
| Extract.ReadRow | match.go:150-164 | a match row reads exactly when it is well formed, giving the club loop's teams and the parsed scores, both in range |
| Extract.BuildMatch | match.go:142-173 | the record carries the page date, the current competition, the teams and the scores, and consistent draw and winner fields |
| Extract.ExtractMatch | match.go:140-174 | a match row yields a record exactly when it is well formed; the record has the page date, the current competition, the parsed scores, the assigned teams and consistent result fields |
| Extract.Visit | match.go:130-176 | one child: a named anchor sets the id, an `h4` sets the name, a match row appends exactly its record, nothing else changes; it panics only on a malformed match row |
| Extract.ScanNodes | match.go:126-177 | the fold succeeds exactly when every match row can be read, appends one record per match row and leaves the earlier records as they were |
| Extract.ParseMatches | match.go:123-178 | the page succeeds exactly when every match row is well formed; it adds one record per match row after the existing records, which are unchanged |
| RowProps.ScoresOfPieces | match.go:151-164 | the score text `x-y` gives `Atoi` of the trimmed `x` and the trimmed `y` |
| RowProps.ScoresRoundTrip | match.go:150-164 | the score text `a - b` gives the scores `a` and `b` |
| RowProps.UnreadablePieceIsZero | match.go:163 | a score piece that does not start with a digit or a sign counts as 0 |
| RowProps.TeamIdOfPath | match.go:155 | the team id is the third `/`-separated segment of the link, whatever follows it |
| RowProps.LaterClubsFillTeamTwo | match.go:157-161 | once team 1 is set, each further club overwrites team 2, even with an empty id, so the last one wins |
| RowProps.ClubsFillTeams | match.go:152-162 | when the first club's id is not empty it is team 1, and the last of the others is team 2 whatever its id; a single club leaves team 2 empty |
| RowProps.OverflowingScoreIsMaxInt | match.go:163 | a first score piece whose leading digits exceed the `uint64` range scores the `int` maximum, whatever follows the digits |
| RowProps.EmptyIdRetakesTeamOne | match.go:153-156 | while the team 1 id is empty, a club with an empty id takes team 1 again, setting only the team 1 name, and the other clubs go on from there |
| RowProps.EmptyIdsKeepTeamOneOpen | match.go:152-162 | any run of clubs with empty ids leaves team 1 open: the clubs after the run are assigned as if the run were one club, the last, setting only the team 1 name |
| RowProps.EmptyFirstIdKeepsTeamOneOpen | match.go:153-156 | a first club whose link has an empty third segment leaves the team 1 id empty, so the next club takes team 1 again |
| ScanProps.RowsWellFormedIff | match.go:146-164 | a page scans without a panic exactly when each of its match rows is well formed |
| ScanProps.OtherNodesChangeNothing | match.go:130-176 | an anchor without `name`, a `div` of another class and any other tag change neither the competition nor the records |
| ScanProps.ScanAppend | match.go:126-177 | scanning two runs of nodes is scanning the first, then the second from where the first left off |
| ScanProps.CountRowsAppend | match.go:148 | match rows add up over consecutive runs of nodes |
| ScanProps.VisitIgnoresEarlierRecords | match.go:174 | one step behaves the same whatever records came before, only appending after them |
| ScanProps.ScanIgnoresEarlierRecords | match.go:174 | the fold's panics, new records and final competition do not depend on the records it started with |
| ScanProps.ScanContext | match.go:130-139 | after a run of nodes, the competition id is that of the last named anchor and the name that of the last heading, or the earlier values when there is none |
| ScanProps.ScanAttribution | match.go:142-174 | the record of the match row at position `i` is the new record numbered by the match rows before it, built under the last anchor and heading before the row |
| ScanProps.RowAttribution | match.go:142-174 | in a parsed page, the record of each match row stands at the index given by the match rows before it, built under the last anchor and heading before the row |
| ScanProps.RecordCompetition | match.go:143-145 | a record's competition id and name are those of the last named anchor and last heading before its row |
| ScanProps.CompetitionIdFromLastAnchor | match.go:131-135 | a record's competition id is the `name` of the last named anchor before its row |
| ScanProps.CompetitionIdEmptyWithoutAnchor | match.go:124 | a record with no named anchor before its row has an empty competition id |
| ScanProps.CompetitionNameFromLastHeading | match.go:137-139 | a record's competition name is the text of the last `h4` before its row |
| ScanProps.CompetitionNameEmptyWithoutHeading | match.go:125 | a record with no `h4` before its row has an empty competition name |
| ScanProps.LaterNodesKeepEarlierRecords | match.go:126-177 | nodes further down never change the records already emitted: the records of a prefix of the page are a prefix of the page's records |
| ScanProps.ParseMatchesAppends | match.go:174 | the page's records are appended after the existing ones, whatever those are, and whether the page panics does not depend on them |
| ScanProps.NoRowsNoRecords | match.go:146-148 | a page without match rows adds no records and does not panic |
| ScanProps.EmittedRecordsWellFormed | match.go:142-173 | every record the fold emits carries the page date and consistent result fields, with scores in range when the row reader's are |
| ScanProps.ParsedRecordsWellFormed | match.go:142-173 | every record a page adds carries the page date, consistent result fields and scores between 0 and the `int` maximum |
| Retrieve.PageMatches | match.go:117 | the page scanner succeeds exactly when every match row is well formed and gives one record per match row |
| Retrieve.ParsePage | match.go:105-121 | the day becomes current; a fetch error is returned with the records untouched; a malformed row panics; otherwise the page's records are appended |
| Retrieve.ParsePageIsParseMatches | match.go:117 | with the program's scanner, a fetched page ends normally exactly when `parseMatches` does not panic, and leaves exactly the records `parseMatches` leaves |
| Retrieve.Days | match.go:94 | the loop's days run from start to end inclusive in ascending steps of one day, and there are none when start is after end |
| Retrieve.DaysStep | match.go:94 | a range that is not empty is its first day followed by the range from the next day |
| Retrieve.RunDaysAllLoad | match.go:93-102 | when every page loads, the loop ends normally having appended every page's records in day order |
| Retrieve.RunDaysStopsAtFirstError | match.go:96-99 | the first day that fails ends the loop with that day's error or panic; that day is current, later days are not attempted, and only the earlier days' records are added |
| Retrieve.ParseAllWithTimeRange | match.go:93-102 | the loop agrees with parsing the days in order up to the first failure; a returned error is the fetch error of the current day within the range; an empty range leaves everything unchanged |
| Retrieve.ParseAllWithStringRange | match.go:79-90 | a bad start or end text returns its parse error before any page is fetched; otherwise the loop runs and its error is dropped, only a panic getting through |
| Export.BoolText | match.go:71 | `%t` prints `true` exactly for true |
| Export.CsvFields | match.go:71 | a line has eleven fields |
| Export.QuotedLineIsJoin | match.go:71 | a line of quoted fields is its fields and the commas between them joined by quote characters |
| Export.QuotedLineRoundTrip | match.go:71 | a line of quoted, comma-separated fields reads back into those fields when none holds a quote |
| Export.FormattedFree | match.go:71 | the `%d` and `%t` fields never hold a quote or a newline |
| Export.CsvFieldsFree | match.go:71 | a record whose text holds no quote (or no newline) gives fields that hold none |
| Export.CsvLineRoundTrip | match.go:71 | a record's line holds, in order: the date, competition id and name, team names, team ids, the two scores (read back by `Atoi`), the winner id and `true` exactly on a draw |
| Export.QuotedLineFree | match.go:71 | a line holds no newline except the one that ends it, when its fields hold none |
| Export.CsvLineReadsBack | match.go:71 | the quoted fields of a record, ended by a newline, read back into those fields when the record's text holds no quote |
| Export.CsvLine | match.go:71 | a record's line starts with a quote and ends with the newline, and reads back into the record's eleven fields when its text holds no quote |
| Export.NextLine | match.go:70-73 | the line of one more record comes first in the export, before the lines of the rest |
| Export.ExportText | match.go:70-73 | the export is empty exactly when there are no records and otherwise ends with a newline; when no text field holds a newline it holds exactly one line per record, in record order |

## Left out

- The network fetch (`goquery.NewDocument`) and the URL template (`getMatchURL`). Fetching is the oracle `fetch`.
- HTML parsing and CSS selection (`Find`, `Children`, `Attr`, `Text`). A page is an abstract sequence of nodes, and selection is not modelled.
- File creation, buffered writing and the file name made from `time.Now().Second()`. These are I/O and clock reads; the model gives only the text written.
- `log.Println`. It has no effect on the results.
- `time.Parse`, `Format`, `AddDate` and `Time.String`.
  - Days are integers, and `AddDate(0, 0, 1)` is `+ 1`.
  - Reading a date text is the oracle `parseDate`.
  - Printing one is `showDate`.
- Retrieve.ParsePage: the page is identified by its day, not by a date text. The `time.Parse` inside `ParsePage` re-reads a text that `Format` produced from that day, so its error path is not modelled.
- Retrieve.ParsePage: after a panic, the partly scanned page's records are not modelled. The program does not recover from the panic, so that state is never observed.
- Numerals.Atoi: Go's `int` is taken to be 64 bits wide. Go's fast path for texts shorter than 19 characters is not modelled separately: it cannot overflow and gives the same value as `ParseInt`. Underscore digit separators are not involved, because base 10 rejects them.
- GoStrings.Split: only the one-character separators the program uses (`-` and `/`) are modelled.
- Strings are sequences of Unicode code points. Invalid UTF-8 and the byte-level behaviour of Go strings are not modelled.
- Export.CsvLineRoundTrip: the round trip holds only for text fields without a quote. The program writes fields verbatim without CSV escaping, so a quote inside a field is not read back.
- Panics are `None` results rather than preconditions, so the model also says what the program does with malformed input.
