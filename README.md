# smbstatus table reader

A Dafny model of the table reader of samba_exporter
(`smbstatusreader/reader.go`). The reader turns the text that Samba's
`smbstatus` command prints into typed records. It reads three tables:

- locked files (`smbstatus -L -n`) into `LockData`;
- connected shares (`smbstatus -S -n`) into `ShareData`;
- samba processes (`smbstatus -p -n`) into `ProcessData`.

All three readers share one pipeline:

1. Cut the text at newlines and find the first line that starts with 41 dashes.
2. Tokenise the header line above it on double spaces, and check its width and column names.
3. Tokenise every line below it on single spaces into trimmed, non-empty tokens.
4. Turn each row into a record by fixed token positions, or skip the row and log why.

The model keeps the Go code's imperative shape. Each Go loop is a Dafny `method` with its loop invariants:

- `findSeperatorLineIndex`, `getFieldMatrix` and `getFieldMatrixFixLength`;
- the string building in `tryGetTimeStampFromStrArr` and in the lock name loop;
- the row loops of the three readers.

Each method is proved equal to a specification function.

- `SeparatorIndex`, `RowsOf`, `FixedLength` and `TimeStamp` specify the shared steps.
- `LockTable`, `ShareTable` and `ProcessTable` each specify a whole table.
- The lemmas state what the readers promise about those functions: when a whole table is refused, the id rule, the time-stamp window, the 12-before-11 share fallback, the shared samba version, and the output shape and order.

Modules:

| module | file | models |
|---|---|---|
| `Wrappers` | wrappers.dfy | `Option` |
| `GoStrings` | go_strings.dfy | the functions of Go's `strings` package that the reader calls (`TrimSpace`, `Split`, `HasPrefix`, the first-only `Replace` through `Index`; `Contains` of one character is Dafny's `in`), with `Join` as the reference for `fmt.Sprintf` concatenation |
| `GoStrconv` | go_strconv.dfy | `strconv.Atoi` on 64-bit `int`, with `Itoa` as its inverse |
| `GoTime` | go_time.dfy | layouts, and time parsing as a parameter |
| `ReaderCommon` | reader_common.dfy | separator search, field matrices, time stamps, the `node:pid` id rule, and collecting row outcomes |
| `LockReader` | lock_reader.dfy | `GetLockData` |
| `ShareReader` | share_reader.dfy | `GetShareData` |
| `ProcessReader` | process_reader.dfy | `GetProcessData` |

Design decisions:

- **Logger.** Each reader returns `log: seq<string>` beside its records. A row that Go skips with `continue` is a `Drop(message)`, and the message is the text the Go code passes to the logger. A row that Go appends is a `Keep(record)`.
- **Time parsing.** It is a function parameter `parse: (Layout, string) -> Option<Time>`. `None` stands for a non-nil error. A `Layout` carries its layout string and whether it is parsed in the local zone. The readers decide only which layouts are tried, on which text, and in which order.
- **The clock.** `time.Now()` in `tryGetTimeStampFromStrArr` is the parameter `now`.
- **Short lock rows.** `GetLockData` does not check the width of a data row before it indexes the row. It reads token 0 of every row, token 1 once the id converts, and tokens 2 to 6 once the user id converts too. So Go panics on an empty row, such as the one a trailing newline produces. It also panics on a row whose two ids convert but that has fewer than 7 tokens. A short row whose id or user id fails is logged and skipped, with no panic (`LockReader.ShortRowsDropped`). `LockReader.GetLockData` requires `RowsIndexable(data)`: every row below the separator of an accepted table satisfies `RowReadable`, which states exactly this condition. These are the inputs on which the Go function returns. A refused table satisfies it (`LockReader.RefusedTable`).
- **Negative node ids.** The id rule does not make a node id non-negative. `"-3:5"` reads as node -3 and pid 5 (`ReaderCommon.ParseIdNegativeNode`). Cluster node ids are meant to be non-negative, but the code does not check this, and the model follows the code.
- **Mode precedence.** The code tests the normal header first and the cluster header second. `ShareReader.ModeOf` tests them in the other order. The order does not matter, because the two tests need different first columns ("Service" and "PID") and so never both hold.

## Model

Source paths are relative to the repository root.

| member | source | states |
|---|---|---|
| ReaderCommon.ParseId | src/tobi.backfrak.de/internal/smbexporterbl/smbstatusreader/reader.go:75-94 | definition of the id rule at all four call sites (also lines 203-222, 245-264, 288-307, 378-397): a token with a colon is Atoi of the piece before the first colon as node id and of the piece after it as pid; otherwise node -1 and Atoi of the token; a failed conversion names which one failed |
| ReaderCommon.TimeStamp | src/tobi.backfrak.de/internal/smbexporterbl/smbstatusreader/reader.go:472-506 | definition: the fields, each with a space before it, trimmed, read by the first of the six layouts that parses |
| GoStrings.HasPrefix | src/tobi.backfrak.de/internal/smbexporterbl/smbstatusreader/reader.go:358 | definition of `strings.HasPrefix`: the text starts with the prefix |
| GoStrings.ReplaceFirst | src/tobi.backfrak.de/internal/smbexporterbl/smbstatusreader/reader.go:359 | definition of `strings.Replace(s, old, new, 1)`: the first occurrence found by Index is replaced, and the text is unchanged without one |
| LockReader.NameEnd | src/tobi.backfrak.de/internal/smbexporterbl/smbstatusreader/reader.go:105-118 | definition: the name ends 5 tokens from the end when those 5 hold a time stamp, else 6 from the end when those 6 do, else -1 |
| LockReader.LockTime | src/tobi.backfrak.de/internal/smbexporterbl/smbstatusreader/reader.go:105-118 | definition: the time stamp read from the window NameEnd chose |
| LockReader.RowReadable | src/tobi.backfrak.de/internal/smbexporterbl/smbstatusreader/reader.go:75-104 | definition of the rows Go reads without an index out of range: at least one token, at least two when the id converts, and at least seven when the user id converts as well |
| LockReader.LockRow | src/tobi.backfrak.de/internal/smbexporterbl/smbstatusreader/reader.go:71-136 | definition of one row's fate: id failure, user-id failure, no time stamp, and a name boundary of 7 or less each drop the row with its message, in that order; otherwise the record of ids, user id, columns 2 to 6, name and time |
| LockReader.LockTable | src/tobi.backfrak.de/internal/smbexporterbl/smbstatusreader/reader.go:46-139 | definition of the whole table: the collected outcomes of the data rows of an accepted table, and nothing for a refused one |
| ShareReader.ModeOf | src/tobi.backfrak.de/internal/smbexporterbl/smbstatusreader/reader.go:187-194 | definition: "PID" first and "Protocol Version" fifth is the cluster layout, "Service" first and "Connected at" fourth the normal layout, anything else neither |
| ShareReader.NormalRow | src/tobi.backfrak.de/internal/smbexporterbl/smbstatusreader/reader.go:199-278 | definition of a normal row's fate: id failure, then a time text that neither of the width's two layouts reads, each drop the row; otherwise service, ids, machine, time, encryption and signing |
| ShareReader.ClusterRow | src/tobi.backfrak.de/internal/smbexporterbl/smbstatusreader/reader.go:285-313 | definition of a cluster row's fate: an id failure drops it; otherwise ids, machine as tokens 3 and 4, encryption and signing, no service and the zero time |
| ShareReader.ShareTable | src/tobi.backfrak.de/internal/smbexporterbl/smbstatusreader/reader.go:166-318 | definition of the whole table: the collected outcomes of the rows the layout reads |
| ProcessReader.IdOrSentinel | src/tobi.backfrak.de/internal/smbexporterbl/smbstatusreader/reader.go:399-417 | definition: the placeholder name reads as -1 without a conversion, anything else by Atoi |
| ProcessReader.SambaVersion | src/tobi.backfrak.de/internal/smbexporterbl/smbstatusreader/reader.go:356-359 | definition: the version line with its first "Samba version" removed, trimmed |
| ProcessReader.ProcessRow | src/tobi.backfrak.de/internal/smbexporterbl/smbstatusreader/reader.go:375-424 | definition of one row's fate: id failure, then user and then group failure each drop the row; otherwise the record with the table's version |
| ProcessReader.ProcessTable | src/tobi.backfrak.de/internal/smbexporterbl/smbstatusreader/reader.go:347-427 | definition of the whole table: the collected outcomes of the 8-token rows of an accepted table, all with the table's version |
| ReaderCommon.SeparatorIndex | src/tobi.backfrak.de/internal/smbexporterbl/smbstatusreader/reader.go:508-517 | the result is -1 or a line index; the line there starts with 41 dashes; no earlier line does, and with -1 no line does |
| ReaderCommon.FindSeparatorLineIndex | src/tobi.backfrak.de/internal/smbexporterbl/smbstatusreader/reader.go:508-517 | the early-return scan returns the index of the first separator line, or -1 |
| ReaderCommon.TrimmedPieces | src/tobi.backfrak.de/internal/smbexporterbl/smbstatusreader/reader.go:460-465 | no more tokens than pieces, and every token is trimmed and non-empty |
| ReaderCommon.TrimFields | src/tobi.backfrak.de/internal/smbexporterbl/smbstatusreader/reader.go:459-465 | the inner loop yields the trimmed non-empty pieces, in order |
| ReaderCommon.RowsOf | src/tobi.backfrak.de/internal/smbexporterbl/smbstatusreader/reader.go:453-470 | one row per input line |
| ReaderCommon.RowsOfIndex | src/tobi.backfrak.de/internal/smbexporterbl/smbstatusreader/reader.go:457-467 | row i is line i tokenised, so rows keep the order of their lines |
| ReaderCommon.GetFieldMatrix | src/tobi.backfrak.de/internal/smbexporterbl/smbstatusreader/reader.go:453-470 | the loop builds exactly the field matrix `RowsOf` of the lines |
| ReaderCommon.FixedLength | src/tobi.backfrak.de/internal/smbexporterbl/smbstatusreader/reader.go:444-448 | no more rows than the matrix, every one of the requested width |
| ReaderCommon.FixedLengthMembers | src/tobi.backfrak.de/internal/smbexporterbl/smbstatusreader/reader.go:444-448 | every kept row is a row of the matrix, and every row of the requested width is kept |
| ReaderCommon.FixedLengthAppend | src/tobi.backfrak.de/internal/smbexporterbl/smbstatusreader/reader.go:444-448 | filtering commutes with concatenation, so kept rows stay in their original order |
| ReaderCommon.FixedLengthEmpty | src/tobi.backfrak.de/internal/smbexporterbl/smbstatusreader/reader.go:440-451 | the result is empty (Go's nil) exactly when no row has the requested width |
| ReaderCommon.FixedLengthOfLine | src/tobi.backfrak.de/internal/smbexporterbl/smbstatusreader/reader.go:59-62 | on a single header line the matrix has one row, the line's tokens, exactly when their count is the requested width, and is empty otherwise |
| ReaderCommon.GetFieldMatrixFixLength | src/tobi.backfrak.de/internal/smbexporterbl/smbstatusreader/reader.go:440-451 | the loop keeps exactly the rows of the field matrix that have `lineFields` tokens |
| ReaderCommon.SpaceConcat | src/tobi.backfrak.de/internal/smbexporterbl/smbstatusreader/reader.go:476-478 | the `Sprintf("%s %s")` loop puts one space before every part |
| ReaderCommon.TimeStampOfTokens | src/tobi.backfrak.de/internal/smbexporterbl/smbstatusreader/reader.go:476-480 | for token fields, the text handed to the parser is the fields joined by single spaces |
| ReaderCommon.TryGetTimeStampFromStrArr | src/tobi.backfrak.de/internal/smbexporterbl/smbstatusreader/reader.go:472-506 | success exactly when one of the six layouts reads the joined, trimmed text; the time is the first layout's result, and `now` on failure |
| ReaderCommon.ParseWithLayouts | src/tobi.backfrak.de/internal/smbexporterbl/smbstatusreader/reader.go:480-505 | the six attempts in order (ANSIC in the local zone, ANSIC, two 12-hour layouts, two 24-hour layouts) give the first successful parse |
| ReaderCommon.ParseIdPlain | src/tobi.backfrak.de/internal/smbexporterbl/smbstatusreader/reader.go:87-94 | a token without a colon gives node id -1 and the token's value as pid; a failed conversion drops the row |
| ReaderCommon.ParseIdClustered | src/tobi.backfrak.de/internal/smbexporterbl/smbstatusreader/reader.go:75-86 | for "a:b", with any further ":..." ignored, the node id is Atoi(a) and the pid Atoi(b); a node failure is reported before a pid failure |
| ReaderCommon.ParseIdOfPrinted | src/tobi.backfrak.de/internal/smbexporterbl/smbstatusreader/reader.go:75-94 | the id rule reads back every printed "node:pid" and every bare pid of 64-bit ints |
| ReaderCommon.ParseIdNegativeNode | src/tobi.backfrak.de/internal/smbexporterbl/smbstatusreader/reader.go:76-77 | "-3:5" is accepted as node -3, pid 5 |
| ReaderCommon.Collect | src/tobi.backfrak.de/internal/smbexporterbl/smbstatusreader/reader.go:69-137 | the number of records plus the number of logged messages is the number of rows; KeptIndices and DroppedIndices say which row gives which |
| ReaderCommon.CollectMembers | src/tobi.backfrak.de/internal/smbexporterbl/smbstatusreader/reader.go:69-137 | every record is a kept row's record, every kept row's record is among the records, and every message comes from a dropped row |
| ReaderCommon.KeptIndices | src/tobi.backfrak.de/internal/smbexporterbl/smbstatusreader/reader.go:136 | the j-th record is the Keep of row idx[j] and idx is strictly increasing, so records keep the order of their rows |
| ReaderCommon.KeptIndicesComplete | src/tobi.backfrak.de/internal/smbexporterbl/smbstatusreader/reader.go:136 | every kept row's position is in KeptIndices, so the records are exactly the kept rows, each once, in row order |
| ReaderCommon.DroppedIndices | src/tobi.backfrak.de/internal/smbexporterbl/smbstatusreader/reader.go:78-127 | the j-th logged message is the reason of dropped row d[j], and d is strictly increasing |
| ReaderCommon.DroppedIndicesComplete | src/tobi.backfrak.de/internal/smbexporterbl/smbstatusreader/reader.go:78-127 | every dropped row's position is in DroppedIndices, so the log is exactly the dropped rows' messages, each once, in row order |
| ReaderCommon.CollectStep | src/tobi.backfrak.de/internal/smbexporterbl/smbstatusreader/reader.go:69-137 | one more loop iteration appends one more outcome |
| GoStrings.TrimSpace | src/tobi.backfrak.de/internal/smbexporterbl/smbstatusreader/reader.go:461 | the result has no leading or trailing white space |
| GoStrings.TrimSpaceBounds | src/tobi.backfrak.de/internal/smbexporterbl/smbstatusreader/reader.go:461 | the result is a slice of the input that only white space surrounds |
| GoStrings.TrimLeftSuffix | src/tobi.backfrak.de/internal/smbexporterbl/smbstatusreader/reader.go:461 | trimming the left keeps a suffix, and only white space is dropped |
| GoStrings.TrimRightPrefix | src/tobi.backfrak.de/internal/smbexporterbl/smbstatusreader/reader.go:461 | trimming the right keeps a prefix, and only white space is dropped |
| GoStrings.TrimSpaceOfTrimmed | src/tobi.backfrak.de/internal/smbexporterbl/smbstatusreader/reader.go:461 | a trimmed string is left as it is |
| GoStrings.TrimSpaceIdempotent | src/tobi.backfrak.de/internal/smbexporterbl/smbstatusreader/reader.go:479 | trimming twice is trimming once |
| GoStrings.TrimSpaceOfSpacePrefixed | src/tobi.backfrak.de/internal/smbexporterbl/smbstatusreader/reader.go:132-134 | trimming " " + token gives the token |
| GoStrings.TrimmedSpacePrefixed | src/tobi.backfrak.de/internal/smbexporterbl/smbstatusreader/reader.go:130-134 | the trimmed space-prefixed concatenation of tokens is their single-space join |
| GoStrings.SpacePrefixedIsJoin | src/tobi.backfrak.de/internal/smbexporterbl/smbstatusreader/reader.go:130-133 | the space-prefixed concatenation is a space before the single-space join |
| GoStrings.Index | src/tobi.backfrak.de/internal/smbexporterbl/smbstatusreader/reader.go:359 | the result is -1 or a position where the substring fits |
| GoStrings.IndexFirstOccurrence | src/tobi.backfrak.de/internal/smbexporterbl/smbstatusreader/reader.go:359 | the result is the first occurrence, and -1 exactly when there is none |
| GoStrings.ReplaceFirstOfPrefix | src/tobi.backfrak.de/internal/smbexporterbl/smbstatusreader/reader.go:358-359 | replacing the first occurrence of a prefix by "" removes that prefix |
| GoStrings.Split | src/tobi.backfrak.de/internal/smbexporterbl/smbstatusreader/reader.go:52 | there is always at least one piece |
| GoStrings.JoinSplit | src/tobi.backfrak.de/internal/smbexporterbl/smbstatusreader/reader.go:52 | joining the pieces with the separator gives back the input |
| GoStrings.SplitPiecesAvoidSeparator | src/tobi.backfrak.de/internal/smbexporterbl/smbstatusreader/reader.go:76 | no piece holds the separator character |
| GoStrings.SplitAtFirst | src/tobi.backfrak.de/internal/smbexporterbl/smbstatusreader/reader.go:76-77 | the first piece is the text before the first separator |
| GoStrings.SplitOfContained | src/tobi.backfrak.de/internal/smbexporterbl/smbstatusreader/reader.go:76-82 | a token holding a colon splits into at least two pieces, so `pidFields[1]` exists |
| GoStrings.SplitWithoutSeparator | src/tobi.backfrak.de/internal/smbexporterbl/smbstatusreader/reader.go:76 | a text without the separator is one piece |
| GoStrings.JoinOfTokensIsToken | src/tobi.backfrak.de/internal/smbexporterbl/smbstatusreader/reader.go:224 | a join of tokens is itself trimmed and non-empty |
| GoStrings.JoinSnoc | src/tobi.backfrak.de/internal/smbexporterbl/smbstatusreader/reader.go:131-133 | joining one more part appends the separator and that part |
| GoStrconv.Atoi | src/tobi.backfrak.de/internal/smbexporterbl/smbstatusreader/reader.go:77 | a converted value fits a 64-bit int |
| GoStrconv.AtoiOfItoa | src/tobi.backfrak.de/internal/smbexporterbl/smbstatusreader/reader.go:77 | Atoi reads back every printed 64-bit integer |
| GoStrconv.AtoiOfItoaOutOfRange | src/tobi.backfrak.de/internal/smbexporterbl/smbstatusreader/reader.go:77 | Atoi rejects every printed integer outside 64 bits |
| GoStrconv.AtoiRejectsNonDigit | src/tobi.backfrak.de/internal/smbexporterbl/smbstatusreader/reader.go:399-402 | a string with a non-digit that is not a leading sign never converts |
| GoTime.FirstParse | src/tobi.backfrak.de/internal/smbexporterbl/smbstatusreader/reader.go:480-503 | None exactly when no layout parses; otherwise the result of some layout, with every earlier layout failing |
| LockReader.TableSeparator | src/tobi.backfrak.de/internal/smbexporterbl/smbstatusreader/reader.go:48-67 | an accepted lock table has its separator at line 1 or below |
| LockReader.LocateTable | src/tobi.backfrak.de/internal/smbexporterbl/smbstatusreader/reader.go:48-67 | the checks before the row loop accept exactly the tables `TableSeparator` accepts, and give their lines |
| LockReader.FindTimeStamp | src/tobi.backfrak.de/internal/smbexporterbl/smbstatusreader/reader.go:105-118 | the name boundary and time come from the 5-token window, or from the 6-token window only when that fails |
| LockReader.ReadLockRow | src/tobi.backfrak.de/internal/smbexporterbl/smbstatusreader/reader.go:71-136 | the loop body skips with the logged message, or keeps, as `LockRow` says |
| LockReader.ReadLockRows | src/tobi.backfrak.de/internal/smbexporterbl/smbstatusreader/reader.go:69-137 | the row loop collects the outcome of every row, in order |
| LockReader.GetLockData | src/tobi.backfrak.de/internal/smbexporterbl/smbstatusreader/reader.go:46-139 | records and log equal `LockTable` of the text, for every input on which Go does not panic |
| LockReader.RefusedTable | src/tobi.backfrak.de/internal/smbexporterbl/smbstatusreader/reader.go:47-67 | a refused table gives no records and no messages |
| LockReader.LockTableRejects | src/tobi.backfrak.de/internal/smbexporterbl/smbstatusreader/reader.go:48-67 | "No locked files", no separator below line 0, or a header that is not 9 columns with "Pid" and "Oplock" in place each give an empty result |
| LockReader.LockTableShape | src/tobi.backfrak.de/internal/smbexporterbl/smbstatusreader/reader.go:69-137 | one record or message per row below the separator; the j-th record is the Keep of data line s+1+idx[j] for increasing idx |
| LockReader.LockRowKept | src/tobi.backfrak.de/internal/smbexporterbl/smbstatusreader/reader.go:75-128 | a row is kept exactly when the ids and user id convert, it has at least 7 tokens, and the name boundary is beyond 7; id and user-id failures log their own messages |
| LockReader.ShortRowsDropped | src/tobi.backfrak.de/internal/smbexporterbl/smbstatusreader/reader.go:75-99 | a row of any length whose id fails, or of at least two tokens whose user id fails, is read without a panic and dropped with its message |
| LockReader.LockTableComplete | src/tobi.backfrak.de/internal/smbexporterbl/smbstatusreader/reader.go:69-137 | every data row the row rule keeps has its place among the records |
| LockReader.LockTableLog | src/tobi.backfrak.de/internal/smbexporterbl/smbstatusreader/reader.go:69-137 | the j-th message is the reason of data row d[j] for increasing d, and every dropped row has its message |
| LockReader.NameEndTime | src/tobi.backfrak.de/internal/smbexporterbl/smbstatusreader/reader.go:105-123 | no boundary exactly when neither window parses; otherwise the 5-token window when it parses, else the 6-token one |
| LockReader.KeptLockRow | src/tobi.backfrak.de/internal/smbexporterbl/smbstatusreader/reader.go:75-134 | a kept record holds the id rule's ids, the user id, columns 2 to 6, the tokens from 7 to the boundary joined by spaces as name, and the window's time |
| ShareReader.HeaderOf | src/tobi.backfrak.de/internal/smbexporterbl/smbstatusreader/reader.go:176-186 | a header is accepted exactly when it has six columns or, failing that, seven, and then the accepted row is the header's tokens |
| ShareReader.ShareModeOfHeader | src/tobi.backfrak.de/internal/smbexporterbl/smbstatusreader/reader.go:176-194 | the table is normal exactly when the header above the separator has 6 or 7 columns with "Service" first and "Connected at" fourth, and cluster exactly when they hold "PID" first and "Protocol Version" fifth |
| ShareReader.ReadNormalRow | src/tobi.backfrak.de/internal/smbexporterbl/smbstatusreader/reader.go:199-278 | the normal loop body (either width) skips with the logged message, or keeps, as `NormalRow` says |
| ShareReader.ReadClusterRow | src/tobi.backfrak.de/internal/smbexporterbl/smbstatusreader/reader.go:285-313 | the cluster loop body skips or keeps as `ClusterRow` says |
| ShareReader.ReadNormalRows | src/tobi.backfrak.de/internal/smbexporterbl/smbstatusreader/reader.go:199-279 | the normal row loop collects every row's outcome, in order |
| ShareReader.ReadClusterRows | src/tobi.backfrak.de/internal/smbexporterbl/smbstatusreader/reader.go:285-313 | the cluster row loop collects every row's outcome, in order |
| ShareReader.GetShareData | src/tobi.backfrak.de/internal/smbexporterbl/smbstatusreader/reader.go:166-318 | records and log equal `ShareTable` of the text, for every input |
| ShareReader.ShareTableRejects | src/tobi.backfrak.de/internal/smbexporterbl/smbstatusreader/reader.go:171-194 | no separator below line 0, a header of neither 6 nor 7 columns, or a header naming neither layout each give an empty result |
| ShareReader.NormalPrefersTwelve | src/tobi.backfrak.de/internal/smbexporterbl/smbstatusreader/reader.go:196-240 | the normal layout reads the 12-token rows when some row has 12 tokens, and otherwise the 11-token rows; every row read has that width and is a body row |
| ShareReader.ShareTableShape | src/tobi.backfrak.de/internal/smbexporterbl/smbstatusreader/reader.go:196-315 | one record or message per row read; the j-th record is the Keep of row idx[j] by the layout's row rule, for increasing idx |
| ShareReader.ShareTableComplete | src/tobi.backfrak.de/internal/smbexporterbl/smbstatusreader/reader.go:196-315 | every row read that the layout's row rule keeps has its place among the records |
| ShareReader.NormalTableLog | src/tobi.backfrak.de/internal/smbexporterbl/smbstatusreader/reader.go:196-281 | in a normal table the j-th message is the reason of row d[j] for increasing d, and every dropped row has its message |
| ShareReader.ClusterTableLog | src/tobi.backfrak.de/internal/smbexporterbl/smbstatusreader/reader.go:282-315 | in a cluster table the j-th message is the reason of row d[j] for increasing d, and every dropped row has its message |
| ShareReader.NormalRowKept | src/tobi.backfrak.de/internal/smbexporterbl/smbstatusreader/reader.go:200-236 | a normal row is kept exactly when its id converts and one of the width's two layouts reads tokens 3 to 9 (or 8); the record's columns and time, and the message when the time fails |
| ShareReader.ClusterRowKept | src/tobi.backfrak.de/internal/smbexporterbl/smbstatusreader/reader.go:286-312 | a cluster row is kept exactly when its id converts; the machine is tokens 3 and 4 joined by a space, encryption and signing are tokens 6 and 7, and there is no service and no time |
| ShareReader.ClusterRecordsUntimed | src/tobi.backfrak.de/internal/smbexporterbl/smbstatusreader/reader.go:285-313 | every record of a cluster table has the zero time and no service |
| ProcessReader.TableSeparator | src/tobi.backfrak.de/internal/smbexporterbl/smbstatusreader/reader.go:349-372 | an accepted process table has its separator at line 2 or below |
| ProcessReader.ReadRows | src/tobi.backfrak.de/internal/smbexporterbl/smbstatusreader/reader.go:374 | every row read has 8 tokens |
| ProcessReader.LocateTable | src/tobi.backfrak.de/internal/smbexporterbl/smbstatusreader/reader.go:349-372 | the checks before the row loop accept exactly the tables `TableSeparator` accepts, and give the table's samba version |
| ProcessReader.ReadProcessRow | src/tobi.backfrak.de/internal/smbexporterbl/smbstatusreader/reader.go:375-424 | the loop body skips with the logged message, or keeps, as `ProcessRow` says |
| ProcessReader.ReadProcessRows | src/tobi.backfrak.de/internal/smbexporterbl/smbstatusreader/reader.go:374-425 | the row loop collects every row's outcome, in order |
| ProcessReader.GetProcessData | src/tobi.backfrak.de/internal/smbexporterbl/smbstatusreader/reader.go:347-427 | records and log equal `ProcessTable` of the text, for every input |
| ProcessReader.RefusedTable | src/tobi.backfrak.de/internal/smbexporterbl/smbstatusreader/reader.go:348-372 | a refused table gives no records and no messages |
| ProcessReader.ProcessTableRejects | src/tobi.backfrak.de/internal/smbexporterbl/smbstatusreader/reader.go:352-372 | no separator below line 1, no "Samba version" line two above it, or a header that is not 7 columns with "Username" and "Protocol Version" in place each give an empty result |
| ProcessReader.SambaVersionOfLine | src/tobi.backfrak.de/internal/smbexporterbl/smbstatusreader/reader.go:357-359 | the version is the text after "Samba version", trimmed |
| ProcessReader.TableVersionOfLine | src/tobi.backfrak.de/internal/smbexporterbl/smbstatusreader/reader.go:356-359 | an accepted table's version is the trimmed text after "Samba version" on the line two above the separator |
| ProcessReader.SentinelIds | src/tobi.backfrak.de/internal/smbexporterbl/smbstatusreader/reader.go:399-417 | an id column reads as -1 exactly for the placeholder name or "-1", and "nobody" and "nogroup" are not numbers |
| ProcessReader.ProcessRowKept | src/tobi.backfrak.de/internal/smbexporterbl/smbstatusreader/reader.go:375-424 | a row is kept exactly when the ids, the user and the group columns read; the record's columns and version, and the message of each failure |
| ProcessReader.SharedSambaVersion | src/tobi.backfrak.de/internal/smbexporterbl/smbstatusreader/reader.go:422 | every record carries the table's samba version |
| ProcessReader.ProcessTableShape | src/tobi.backfrak.de/internal/smbexporterbl/smbstatusreader/reader.go:374-425 | the j-th record is the Keep of the idx[j]-th 8-token row, for increasing idx |
| ProcessReader.ProcessTableComplete | src/tobi.backfrak.de/internal/smbexporterbl/smbstatusreader/reader.go:374-425 | every 8-token row the row rule keeps has its place among the records |
| ProcessReader.ProcessTableLog | src/tobi.backfrak.de/internal/smbexporterbl/smbstatusreader/reader.go:374-425 | the j-th message is the reason of 8-token row d[j] for increasing d, and every dropped row has its message |

## Left out

- `GetPsData` (reader.go:429-438) is left out. It only hands the text to `encoding/json`, a library outside this model.
- The `String()` methods of the three records (reader.go:33-42, 153-162, 334-343) are left out. They only format text through `fmt` and `time.Format`.
- The calendar and time zones are not modelled. `time.Parse` and `time.ParseInLocation` are the parameter `parse`, and `time.Now()` is the parameter `now`.
- The log keeps only the text each call site passes to the logger. The Go error that `WriteErrorWithAddition` prints beside it is not modelled.
- The log omits the quoted line in the two lock messages (reader.go:121, 126). This line is wrong in the source. `i` counts the data rows from 0, but the code quotes `lines[i]`, which counts from the first line of the whole text. The line it should quote is `lines[sepLineIndex+1+i]`. For the first data row the message therefore quotes line 0, which lies above the separator.
- Printing through the logger (`commonbl/logger.go`) is not modelled. Neither is the exporter that calls the readers (`smbexporter/exporter.go`).
- LockReader.GetLockData: requires that every row below the separator of an accepted table is `RowReadable`. On any other input Go panics with an index out of range, and the model does not describe a panic.
- ReaderCommon.ParseId: accepts a negative node id before the colon, as the code does. Rejecting it would state the intended node ids, not the code.
- The `fmt.Sprintf` calls that join tokens with single spaces (reader.go:224, 266, 308, 418) are modelled as `Join` and `+`. This is the same text for the tokens involved.
- Strings are sequences of characters. Go's byte-level iteration and UTF-8 handling are not modelled; `IsSpace` follows Go's `unicode.IsSpace` on characters.
