# leaky: a verified model of the ingestion core

leaky reads leaked credential dumps from a tar archive (plain, gzip or xz)
or from a directory tree. It turns each text line into a record
`(domain, user, password)` and inserts the records into a MySQL table
`leak` in batched transactions. This project models, in Dafny, the parts of
`leaky.go` that decide what ends up in the table:

- **Records** (`records.dfy`): the line parser of `process`. It chooses a
  separator by priority (`;`, then `,`, then `:`, then `|`, wherever the
  character occurs) and cuts at the first occurrence. It splits the left
  field on `@` into user and domain, and trims the secret.
- **Ingest** (`ingest.dfy`): the batched writer. `Writer` is a class
  holding the counter `i`, the transaction handle, and the pending and
  committed records. Its methods are `scanlines`, `store`, `Begin`,
  `Commit` and `Rollback`. Each method is proved against a specification
  function (`LineStep`, `Run`, `Scan`) on a `State` value.
- **Batching** (`batching.dfy`): theorems about `Scan`. They cover:
  - the batch bound and the number of commits;
  - where the loop stops, and which records survive each kind of failure;
  - the nil-transaction panic.
- **Archive** (`archive.dfy`): `readtar`. It chooses a decoder by extension
  and loops over the entries, skipping directories. Each regular entry is
  scanned on the same writer.
- **Partition** (`partition.dfy`): the DDL `addpartition` builds from the
  last insert id, with a decoder proving what the query names.
- **Config** (`config.dfy`): the `-T`/`-D` check of `main`, flag-else-
  environment resolution in `checkparams`, and the DSN built by `opendb`.
- **Text**, **Wrappers**: the Go library functions the core relies on
  (`strings.SplitN`, `strings.Split`, `strings.TrimSuffix`,
  `filepath.Ext`, `strconv.Itoa`), plus `Option` and `Result`.

The database is abstract. A record inserted into the open transaction is
pending, and a commit moves the pending records to `committed`. Which calls
fail is an input (`Faults`: for each of `Begin`, Prepare and Exec, the set
of line indices at which it fails). An entry's text is a string, which
`scanlines` reads with `ReadString('\n')` (`Text.ReadString`); the
fragment after the last newline is never processed.
`MAX_TRANSACTIONS_PER_COMMIT` is scaled down from 1,000,000 to
`MaxTransactionsPerCommit = 2`.

Notes on the code's behaviour, which the model follows:

- A full batch holds `MAX_TRANSACTIONS_PER_COMMIT + 1` records
  (`BatchSize`). The counter runs from 0 up to MAX inclusive, and the
  commit at line 224 comes after the record processed at MAX.
- After a parse error, the final `tx.Commit()` (line 231) commits the
  records already pending in the open batch. So when a second archive entry
  holds a clean line and then a bad one, the clean line's record is
  committed (`Archive.TwoEntries`).
- A failing Prepare in `store` returns without rolling back (line 169), so
  the batch it belonged to is committed at the end. Only a failing Exec
  rolls back.
- The final commit is made on `tx` as it stands after the loop. `tx` is
  nil when the stream held no complete line or `Begin` failed (see
  Findings).
- The partition is bounded by `lastinsert + MAX`, while a batch takes
  `MAX + 1` ids.

## Model

| member | source | states |
|---|---|---|
| Text.IndexOf | leaky.go:107 | the position found for a separator that occurs lies inside the line |
| Text.IndexOfFirst | leaky.go:107 | the position found holds the separator, and no earlier position does |
| Text.SplitFirst | leaky.go:107-113 | `strings.SplitN(s, d, 2)` when `d` occurs: the text before its first occurrence and the text after it; `SplitFirstParts` and `SplitFirstUnique` state what the parts are |
| Text.SplitFirstParts | leaky.go:107-113 | `strings.SplitN(s, d, 2)` when `d` occurs: the two parts, rejoined with `d`, give `s`, and the first part has no `d` |
| Text.SplitFirstUnique | leaky.go:107-113 | the cut is at the first occurrence: any `a + d + b` with no `d` in `a` splits into `(a, b)` |
| Text.LastIndexOf | leaky.go:148 | the position found for the last occurrence of a delimiter lies inside the DSN |
| Text.LastIndexOfUnique | leaky.go:148 | a position holding the delimiter with none after it is the one found |
| Text.SplitLastUnique | leaky.go:148 | the cut at the last occurrence: any `a + c + b` with no `c` in `b` splits into `(a, b)` |
| Text.SplitAll | leaky.go:118 | `strings.Split(s, "@")` gives at least one segment |
| Text.SplitAllSegments | leaky.go:118 | no segment of `strings.Split` contains the separator |
| Text.SplitAllHead | leaky.go:118-123 | the first segment, the user, is a prefix of the string split |
| Text.JoinSplitAll | leaky.go:118 | joining the segments of `strings.Split` with the separator restores the string |
| Text.SplitAllCons | leaky.go:118 | the first segment is the text before the first separator, and splitting carries on after it |
| Text.TrimSuffix | leaky.go:119 | `strings.TrimSuffix` with a one-character suffix; `TrimSuffixRemovesOne` states its effect |
| Text.TrimSuffixRemovesOne | leaky.go:119 | `strings.TrimSuffix` with a one-character suffix removes exactly one trailing copy when present, and nothing otherwise |
| Text.Ext | leaky.go:56 | `filepath.Ext` on a slash-separated path; `ExtSuffix`, `ExtShape` and `ExtEmpty` state what it returns |
| Text.ExtSuffix | leaky.go:56 | `filepath.Ext` is a suffix of the path |
| Text.ExtShape | leaky.go:56 | a non-empty extension starts with the last `.` of the path and holds no other `.` and no `/` |
| Text.ExtEmpty | leaky.go:56 | the extension is empty exactly when every `.` of the path is followed by a `/`, that is when the final element has no `.` |
| Text.ReadString | leaky.go:201-204 | `ReadString('\n')` splits the unread text into what it returns and what stays unread; it reports end of file exactly when no `\n` is left, and otherwise returns a line ending in its only `\n` |
| Text.SplitLines | leaky.go:199-204 | the lines successive `ReadString('\n')` calls deliver, and the fragment that comes with end of file; the three lemmas below state what they are |
| Text.SplitLinesShape | leaky.go:201-204 | every line read ends in its only `\n`, and the fragment holds no `\n` |
| Text.SplitLinesConcat | leaky.go:201-204 | the lines read, followed by the fragment, concatenate back to the stream |
| Text.SplitLinesUnique | leaky.go:201-204 | any lines ending in their only `\n`, followed by a fragment without one, are read back exactly as those lines and that fragment |
| Text.ReadStringLine | leaky.go:201 | on a line followed by more text, `ReadString` returns that line and leaves the rest unread |
| Text.ReadNext | leaky.go:201-204 | one `ReadString` call delivers the next line of the stream, or end of file after the last line, and consumes text |
| Text.Digits | leaky.go:187-188 | `strconv.Itoa` of a natural number is a non-empty string of decimal digits without a leading zero unless the number is 0 |
| Text.DigitsRoundTrip | leaky.go:187-188 | reading the digits of `strconv.Itoa(n)` back gives `n` |
| Text.LeadingDigitsOf | leaky.go:186-189 | the maximal digit prefix of a digit string followed by a non-digit is that digit string |
| Records.ParseError.Message | leaky.go:115 | the error text ends with the offending line |
| Records.Delimiter | leaky.go:106-116 | the separator is `;` iff the line holds one; else `,` iff it holds one; else `:`; else the pipe character; none iff it holds none of the four |
| Records.TrimPassword | leaky.go:119 | `TrimSuffix(TrimSuffix(s, "\n"), "\r")`; `TrimPasswordCases` and the three lemmas after `ParseWithAt` state its effect |
| Records.TrimPasswordCases | leaky.go:119 | the secret loses a trailing CRLF, or a trailing LF not preceded by CR, or a trailing CR when there is no trailing LF, or nothing |
| Records.Parse | leaky.go:103-123 | an error exactly when no separator occurs, and then it carries the line |
| Records.ParsedFields | leaky.go:107-123 | a parsed record's user and domain contain no `@`, and the user is a prefix of the line |
| Records.SemicolonWins | leaky.go:106-107 | a `;` anywhere in the line is the separator, whatever precedes it |
| Records.NoSeparatorRejected | leaky.go:114-116 | a line with none of the four separators is rejected, with the message naming the line |
| Records.ParseWithoutAt | leaky.go:107-123 | cut at the first separator; with no `@` in field 1 the domain is `""` and the user is all of field 1 |
| Records.EmailSegments | leaky.go:118-123 | of the `@`-segments, the first is the text before the first `@` and the second the text up to the next `@`; the rest are dropped |
| Records.ParseWithAt | leaky.go:107-123 | with `@` in field 1, the user is the text before the first `@`, the domain the text between the first and second `@`, and the record is `(domain, user, trimmed secret)` |
| Records.CrLfStripped | leaky.go:119 | `"x\r\n"` gives `"x"` |
| Records.LfStripped | leaky.go:119 | a lone final LF is removed exactly when the text before it does not end with CR |
| Records.LfCrKeepsLf | leaky.go:119 | `"x\n\r"` gives `"x\n"`: the two trims are applied in that order |
| Records.ExampleWithAddress | leaky.go:103-123 | `alice@example.com;hunter2\n` gives `(example.com, alice, hunter2)` |
| Records.ExampleWithoutAddress | leaky.go:103-123 | `bob:secret\r\n` gives `("", bob, secret)` |
| Records.ExampleNoSeparator | leaky.go:114-116 | `nodupe` is rejected with the line |
| Records.ExampleLaterSemicolon | leaky.go:106-113 | in `a,b;c\n` the later `;` beats the earlier `,` |
| Ingest.Hook | leaky.go:207-209 | with `-P` the partition hook runs before the batch opened at line `k`; its DDL is `Partition.PartitionQuery`; `Batching.CleanStream` states where it runs |
| Ingest.BeginSpec | leaky.go:211-215 | `db.Begin()`: a fresh, empty transaction, or a nil `tx` and the end of the loop when it fails; `Batching.BeginFailurePanics` states the consequence |
| Ingest.StoreSpec | leaky.go:164-177 | `store`: a failing Prepare stops without rollback, a failing Exec rolls back and stops, otherwise the record is inserted; `Batching.StatementFailureCommitsBatch` and `SaveFailureLosesBatch` state the consequences |
| Ingest.ProcessSpec | leaky.go:103-131 | `process`: the parse error stops the loop, otherwise `store`; `Batching.ProcessShape` states its shape |
| Ingest.CommitSpec | leaky.go:224-231 | `tx.Commit()` moves the pending records of an open transaction to the committed ones and records the batch size |
| Ingest.LineStep | leaky.go:206-229 | one iteration of the loop; `Batching.StepKeeps` states the invariant it keeps |
| Ingest.Run | leaky.go:199-230 | the loop up to end of file or the first error; `Batching.RunKeeps` and `Batching.RunClean` state what it does |
| Ingest.Scan | leaky.go:194-232 | `scanlines`: the loop, then the unconditional commit; `Batching.CleanStream`, `BatchBound` and the failure lemmas state what it does |
| Ingest.Writer.constructor | leaky.go:194-199 | a fresh writer: counter 0, nil transaction, nothing pending or committed |
| Ingest.Writer.AddPartition | leaky.go:207-209 | the partition hook is recorded with the index of the line that opens the batch; nothing else changes |
| Ingest.Writer.Begin | leaky.go:211-215 | `db.Begin()` opens an empty transaction, or on failure leaves `tx` nil and reports it |
| Ingest.Writer.Rollback | leaky.go:174 | the transaction is rolled back and its pending records discarded |
| Ingest.Writer.Commit | leaky.go:226 | committing an open transaction appends its pending records to the committed ones and logs the batch size; on any other handle it changes nothing |
| Ingest.Writer.Store | leaky.go:164-179 | a Prepare failure stops with no rollback; an Exec failure rolls back and stops; otherwise the record is appended to the pending ones |
| Ingest.Writer.Process | leaky.go:103-131 | a line without a separator stops the loop before `store`; otherwise the parsed record goes to `store` |
| Ingest.Writer.Iteration | leaky.go:206-229 | one pass of the loop body leaves the state and the stop reason that `LineStep` specifies |
| Ingest.Writer.ScanLoop | leaky.go:199-230 | the loop of `scanlines`, reading the stream with `ReadString`, ends in the state, and for the reason, that `Run` gives over the stream's lines from counter 0 and a nil `tx` |
| Ingest.Writer.ScanLines | leaky.go:194-232 | `scanlines` leaves the state, stop reason and panic that `Scan` specifies: the loop, then the unconditional final commit |
| Ingest.Writer.ScanLinesGuarded | leaky.go:194-232 | `scanlines` with the guarded final commit leaves the state that `ScanGuarded` specifies |
| Batching.CompleteBatches | leaky.go:224-229 | of `j` lines, the number in complete batches is a multiple of the batch size, at most `j`, and less than one batch short of `j` |
| Batching.StepOpening | leaky.go:206-229 | at counter 0 a clean line runs the hook (with `-P`), opens a transaction holding just its record, and sets the counter to 1 |
| Batching.StepMiddle | leaky.go:218-229 | strictly between 0 and MAX a clean line appends its record and increments the counter |
| Batching.StepClosing | leaky.go:218-226 | at MAX a clean line appends its record, then the whole batch is committed and the counter reset |
| Batching.RunClean | leaky.go:199-230 | after `j` clean lines, all complete batches are committed in order, the rest are pending in an open transaction, and the hook ran at every multiple of the batch size |
| Batching.CleanStream | leaky.go:194-232 | with no failure, every record is committed in order; the commits are full batches then the remainder; the hook runs before each batch; only an empty stream panics |
| Batching.CommitCount | leaky.go:224-231 | for `n` clean lines there are ceil(n / BatchSize) commits, all full but the last, which holds `n mod BatchSize` records, or a full batch when that is 0 |
| Batching.StopsAtMissingSeparator | leaky.go:218-222 | a line without a separator stops the loop; the earlier lines' records, including the open batch, are committed, and no later line is stored |
| Batching.StatementFailureCommitsBatch | leaky.go:167-170 | a failing Prepare stops the loop, and the final commit still commits the open batch |
| Batching.StepSaveFails | leaky.go:172-175 | a failing Exec rolls the transaction back and leaves the loop, with nothing committed |
| Batching.SaveFailureLosesBatch | leaky.go:172-175 | after a failing Exec, only the complete batches before it stay committed; the open batch is lost |
| Batching.BeginFailurePanics | leaky.go:211-215 | a failing `Begin` stops the loop with `tx` nil, and the final commit panics; earlier batches stay committed |
| Batching.EmptyStreamPanics | leaky.go:231 | a stream with no complete line reaches `tx.Commit()` on a nil `tx`, and nothing is stored |
| Batching.ProcessShape | leaky.go:103-131 | `process` either appends the parsed record, or leaves the loop with the state unchanged or rolled back |
| Batching.StepKeeps | leaky.go:199-229 | one iteration keeps `0 <= i <= MAX` and "an open transaction holds exactly `i` records" and commits only full batches |
| Batching.RunKeeps | leaky.go:199-230 | the whole loop keeps that invariant and commits only full batches, never losing committed records |
| Batching.BatchBound | leaky.go:194-232 | for any lines and failures: every commit holds at most BatchSize records, every commit but the last exactly BatchSize, the counter stays within MAX, and committed records only grow |
| Batching.GuardedScan | leaky.go:231 | with the nil guard the outcome equals the as-written one wherever that does not panic, and otherwise is the same state without the panic; nothing stays pending |
| Batching.GuardedEmptyStream | leaky.go:231 | with the nil guard an empty stream changes nothing and returns |
| Archive.ArchiveError.ExitStatus | leaky.go:65 | an unrecognized extension exits with a negative status |
| Archive.FormatOf | leaky.go:56-66 | `.tar` selects the plain reader, `.gz` gzip and `.xz` xz; any other extension is refused and the error names it |
| Archive.FormatOfName | leaky.go:56-66 | only the text after the last dot decides: `name.tar.gz` is gzip, and `name.tgz` is refused with `.tgz` |
| Archive.NoExtension | leaky.go:63-65 | a path whose last element has no dot is refused with the empty extension |
| Archive.ExtOfName | leaky.go:56 | the extension of `base.ext` is `.ext` when `ext` has no dot or slash |
| Archive.ReadFrom | leaky.go:68-80 | the entry loop: directories skipped, every other entry scanned on the same writer, and a panic ends the program; `ScannedInOrder`, `DirectoriesOnly` and `TwoEntries` state what it does |
| Archive.ScannedInOrder | leaky.go:68-80 | the entries scanned are the regular entries in archive order, all of them, or up to the one whose scan panicked |
| Archive.DirectoriesOnly | leaky.go:74-76 | directory entries are skipped: an archive of directories changes nothing |
| Archive.TwoEntries | leaky.go:68-80 | one clean entry, then an entry of a clean line and a line without separator: both are scanned, all of the first entry's records and the second entry's first record are committed |
| Archive.ScanEntry | leaky.go:77-79 | `scanlines` on one entry performs one step of `ReadFrom` |
| Archive.ReadEntries | leaky.go:68-80 | the entry loop leaves the names, panic and writer state that `ReadFrom` gives from the first entry |
| Archive.ReadTar | leaky.go:47-81 | an unknown extension exits with no entry read and the writer unchanged; otherwise the result and the writer are those of `ReadFrom` over the entries |
| Partition.PartitionQuery | leaky.go:186-189 | the DDL starts with `ALTER TABLE leak PARTITION BY RANGE(id) (PARTITION p` |
| Partition.PartitionRoundTrip | leaky.go:186-189 | the query names partition `p<lastinsert>` and bounds it by `lastinsert + MAX`, read back from the text |
| Partition.PartitionQueryInjective | leaky.go:186-189 | different last insert ids give different queries |
| Config.SelectInput | leaky.go:272-278 | the tar file is chosen iff only `-T` is set, the directory iff only `-D`; neither is "Please use -T or -D flag", both is "mutually exclusive" |
| Config.Resolve | leaky.go:235-249 | a set flag wins; otherwise the environment variable, when non-empty; otherwise the error names the variable; a result is never empty |
| Config.CheckParams | leaky.go:234-257 | on success all four parameters are non-empty |
| Config.FlagsWin | leaky.go:239-240 | with every flag set, the environment is never read |
| Config.FirstMissing | leaky.go:251-254 | `checkparams` fails iff some parameter is missing everywhere, and the error names the first in the order DATABASE, DBUSER, DBPASSWORD, DBHOST; on success the four values are the resolved ones |
| Config.Startup | leaky.go:272-280 | the `-T`/`-D` check comes before the parameter check, and success carries both results |
| Config.Transport | leaky.go:139-146 | the driver protocol and parameters: `unix` with `&loc=local` for a host starting with `/`, else `tcp`; `DsnRoundTrip` states it |
| Config.Dsn | leaky.go:148 | the DSN `user:password@proto(host)/database?params` handed to `sql.Open`; `DsnRoundTrip` reads it back |
| Config.ParseDsn | leaky.go:148 | reads a DSN back: database and parameters after the last `/`, credentials up to the last `@` before it, split at their first `:`, then `proto(host)`; `ParseLayout` states that it inverts the layout |
| Config.ParseNetLayout | leaky.go:148 | `proto(host)` reads back into protocol and host when the protocol holds no `(` |
| Config.ParseAddressLayout | leaky.go:148 | `user:password@proto(host)` reads back into its four parts when the user holds no `:` and protocol and host no `@`, whatever the password holds |
| Config.ParseLayout | leaky.go:148 | a DSN laid out from its parts reads back into those parts, with any password, when the user holds no `:`, protocol and host no `@`, protocol no `(`, and database and parameters no `/` (the database no `?` either) |
| Config.DsnRoundTrip | leaky.go:139-148 | for any password, the DSN carries each parameter unchanged, and its protocol is `unix` with `&loc=local` added exactly when the host starts with `/`, and `tcp` otherwise; this needs a user without `:`, a host without `@` and a database without `/` or `?` |

## Left out

- `readdir` and the directory walker (leaky.go:83-101) are file-system traversal, and `filepath.Walk` is not part of this model. Only the tar path of `main` is modelled.
- `os.Open` and its panic (leaky.go:50-53), the gzip and xz decoders and their panics (leaky.go:27-45), and tar header parsing (leaky.go:69) are library I/O. An archive is given as its decoded entries. A `tar.Next` error other than EOF is not modelled.
- Archive.ReadTar: the chosen `Format` does not change what is read, because decoding is not modelled.
- A `ReadString` error other than EOF is not modelled. The code would ignore it and process the partial line.
- SQL, the MySQL driver, `opendb`'s table check and `CREATE TABLE` (leaky.go:150-159) are foreign calls. The sink is the abstract pending/committed pair, and only `Begin`, Prepare and Exec can fail.
- Ingest.Writer.Commit: `tx.Commit()` errors are ignored by the code, and the model treats every commit as successful. `tx.Rollback()` errors are ignored too.
- Console output (`fmt.Println`), and the wrapping of store errors into "Store failed for record" (leaky.go:127), are output only. `Stop` keeps the kind of error and the line.
- `kingpin` flag parsing, `-h`, and `kingpin.Usage()` (leaky.go:261-270, 296) are process plumbing. The flags are parameters, and the usage branch cannot be reached after `SelectInput` succeeds.
- `os.Exit` and its status are error values. `os.Getenv` is a map parameter.
- Partition.PartitionQuery: the id from `SELECT LAST_INSERT_ID()` is a parameter. Go's 64-bit `int`, and overflow of `lastinsert + MAX`, are not modelled, so the id is a natural number.
- Ingest.Writer.AddPartition: the hook log holds line indices, not the DDL. The id sequence of the table is not modelled, so a hook call is not tied to its query.
- Ingest.MaxTransactionsPerCommit: scaled down from 1,000,000 to 2. The batching theorems are stated in terms of the constant.
- A panic ends the whole program. The model returns it as `panicked`, and `ReadTar` stops there.
- Text.Ext: only `/` is treated as a path separator, as `filepath.Ext` does on Unix.
- Config.DsnRoundTrip: does not cover a user holding `:`, a host holding `@`, or a database holding `/` or `?`, which `opendb` passes through verbatim. `ParseDsn` cuts at those characters, so such values are not read back. For some of them no reading could do better: host `h)/x` with database `y` gives the same DSN as host `h` with database `x)/y`.
- `sql.Open`'s own DSN parser is not part of this model. `Config.ParseDsn` is the reading the round trip is stated against.

## Findings

| source | as written | input that shows it | evidently intended | confidence | as-written member | corrected member |
|---|---|---|---|---|---|---|
| leaky.go:231 | `tx.Commit()` is called after the loop whatever `tx` is | an archive entry that is empty, or holds only a fragment without a newline; or a `db.Begin()` failure: `tx` is nil and the call panics, ending the run | commit only a transaction that was opened (`if tx != nil`), returning normally otherwise | not executed | Batching.EmptyStreamPanics | Batching.GuardedScan |
