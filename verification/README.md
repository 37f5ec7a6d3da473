# MariaDB client programs: a Dafny model

This project models parts of MariaDB's client programs in Dafny and proves what they are for.

* **Dump consistency** (`DumpServer`, `DumpProtocol`; client/mysqldump.c). A state machine of
  mysqldump against a server that other clients use at the same time. Whatever those clients
  commit or rotate and whenever they do it, the position written with --master-data is the one whose
  log prefix produces exactly the dumped tables. The theorems start from the options as the user gave
  them.
* **Batch line reader** (`Lines`, `LineReader`; client/readline.cc). A class over a growing,
  shifting, refilled array. For every byte stream and every way the reads chop it, the lines
  handed out are the stream split at newlines; and every way the size limit can cut a stream is
  what some reads lead to.
* **Statement splitter** (`Scanner`, `AddLine`, `Batch`, `Arguments`; client/mysql.cc).
  A class that edits its input line in place with two cursors and refines a pure left-to-right
  scanner; then reader and splitter together, sharing one buffer; then the argument parser that deletes
  characters in place.
* **What the splitter does with a script** (`Splitting`; client/mysql.cc). The same scanner, said in
  the characters of the script: words, strings, removed and kept comments, hints for the server,
  one-character commands and the delimiter, at any place of any line.
* **What the splitter keeps** (`Tokens`, `Lexing`, `Provenance`; client/mysql.cc). A reference
  reading of a byte stream as tokens, line ends included, of which every line has exactly one, and
  a ledger of where every character of every statement comes from. For every stream and every way it
  is delivered the scanner reads those tokens, sends their kept characters once and in order, and adds
  nothing but white space.
* **Completion index** (`WordIndex`, `Completion`, `Generator`; client/completion_hash.cc and the
  generator in client/mysql.cc). A chained hash table of all prefixes of all words, for any hash
  function and any table size, against the plain list of added words.
* **Parallel import** (`ImportPool`; client/mysqlimport.c). Any number of files, workers and
  interleavings of their steps.
* **Flashback** (`Flashback`; client/mysqlbinlog.cc), the **text printers** (`SqlText`, `XmlText`;
  client/mysqldump.c and client/mysqlimport.c) against the readers of their output, and the
  **extended-insert batcher** (`InsertBatcher`; client/mysqldump.c).

`dafny verify dfyconfig.toml` checks the whole project.

## How to read it

Code that changes things step by step is a class or a method with loops: `LineBuffer`,
`Splitter`, `HashTable`, `CommandGenerator`, `Printer`, and the escapers. Each is proved against
a pure function of the old state, and the lemmas are about those functions. The two concurrent
programs are state machines with a total step function: a step that has to wait leaves the state as
it is, so a theorem about every sequence of actions covers every interleaving.

Assumptions:

* Allocation succeeds, the character set is single-byte, and `add_line` is outside binary mode.
* The global read lock blocks commits, a consistent snapshot freezes the reads of transactional
  tables, and the snapshot status variables report the snapshot's own position.
* What the server or a client command makes of a text that is handed on is a parameter: a
  function of everything sent so far (`Env.reply`). So are the character classes and the set of
  client commands.
* Printing and inverting one binlog event are abstract.

Where a promise does not hold for all inputs, the exact condition is proved with an input that shows
the exception:

* In text mode a line over the size limit can be cut between its CR and LF; the CR is then
  kept. Whatever the reads do, gluing the pieces gives back the lines if and only if no line that
  ends in CR LF has a length that can be cut into pieces of the permitted sizes
  (`Lines.GlueIsExact`); and each such cut is what some reads lead to (`LineReader.ReadFile`).
* A space is put where a comment was, but only before a single character, not before a backslash
  pair. Short commands, cut lines, the delimiter before a kept comment, and the end of a line that
  could be a DELIMITER command get none. Characters are joined if and only if something kept comes
  right behind something left out, with no space between (`Provenance.JoinedWhereTripped`;
  `Provenance.PairBehindComment`, `Provenance.CommandInside` and `Provenance.DelimiterLine` are
  inputs that show it). For whole lines nothing is joined if no client command stands inside a
  statement, no pair where a space is due, no kept comment right behind a delimiter, and no line ends
  in what could be a DELIMITER command (`Provenance.NothingIsJoined`). With --skip-comments, the
  default, and without named commands, that covers all lines without a backslash and without the word
  DELIMITER (`Provenance.PlainFilesAreGentle`).
* With --single-transaction and --master-data a table of the dump is right if and only if its engine
  honours the snapshot (`DumpProtocol.SnapshotCoverageIsExact`). Under the global lock a dump is right
  if and only if `lock_tables` is off or no database but the first has tables
  (`DumpProtocol.LockTablesMustBeOff`).
* `completion_hash_exists` compares with the word that created the bucket, so it misses a word
  that was added after a longer one (`WordIndex.OldestIsKey`, `WordIndex.LaterWordIsMissed`).

The comment on `print_xml_cdata` speaks of "[[>", while the code looks for "]]>"; the model follows
the code.

## Model

| member | source | states |
|---|---|---|
| `DumpServer.LogSplit` | client/mysqldump.c:6159-6243 | every valid binlog position splits the whole log into the part before it and the part from it on |
| `DumpServer.MasterStatusIsWholeLog` | client/mysqldump.c:6159-6243 | the position SHOW MASTER STATUS reports is valid and has the whole log before it |
| `DumpServer.CommitExtendsLog` | client/mysqldump.c:6434-6453 | a commit that the locks allow appends itself to the log and changes no earlier position's prefix |
| `DumpServer.RotateKeepsLog` | client/mysqldump.c:7135-7154 | flushing the logs changes neither the log nor any earlier position's prefix |
| `DumpProtocol.NormaliseEstablishes` | client/mysqldump.c:1265-1288 | in accepted options --single-transaction and --lock-all-tables are never both on, --master-data comes with one of them, and lock_tables is then off |
| `DumpProtocol.NormaliseIsExact` | client/mysqldump.c:1265-1288 | for every combination of options: which are refused, and what becomes of each of the others; a dump of one moment is made if and only if one was asked for, with a snapshot if --single-transaction was given and under the global lock otherwise, and lock_tables stays on only without either |
| `DumpProtocol.CommitKeepsInv` | client/mysqldump.c:7125-7180 | another client's commit at any moment keeps the protocol's invariant |
| `DumpProtocol.RotateKeepsInv` | client/mysqldump.c:7125-7180 | so does another client's log rotation |
| `DumpProtocol.SetupKeepsInv` | client/mysqldump.c:7125-7164 | taking the lock, flushing and naming the log keep the invariant |
| `DumpProtocol.SnapshotKeepsInv` | client/mysqldump.c:6498-6528 | opening the snapshot and writing the position keep the invariant: the position names the view that will be dumped |
| `DumpProtocol.UnlockKeepsInv` | client/mysqldump.c:6455-6458 | giving the lock back after the snapshot keeps the view |
| `DumpProtocol.DumpKeepsInv` | client/mysqldump.c:5622-5788 | every dumped table is the view's, until the last one and the purge |
| `DumpProtocol.RunKeepsInv` | client/mysqldump.c:7125-7258 | the invariant holds after every interleaving from every initial state |
| `DumpProtocol.PositionMatchesDump` | client/mysqldump.c:7125-7180 | in all three locking modes, under every interleaving, each covered table in the dump is what replaying the log before the written position gives |
| `DumpProtocol.PurgeKeepsNeededLogs` | client/mysqldump.c:6485-6496 | --delete-master-logs never purges a file that holds log from the written position on |
| `DumpProtocol.FinishedDumpIsComplete` | client/mysqldump.c:5434-5480 | with every combination of options, a finished dump has every table of every database asked for |
| `DumpProtocol.DumpIsOneMoment` | client/mysqldump.c:7125-7180 | if any of the options asks for a dump of one moment, with or without --master-data, the dumped tables are the data at one log position |
| `DumpProtocol.EachDatabaseIsOneMoment` | client/mysqldump.c:5622-5788 | with the default --lock-tables the tables of each database are dumped as they were together at one moment, whatever other clients do |
| `DumpProtocol.SnapshotNeedsNoLock` | client/mysqldump.c:7125-7180 | with --single-transaction the tables are read without the global lock, and it is never taken unless logs are flushed or the server does not publish its snapshot's position |
| `DumpProtocol.PurgeReachesNewLog` | client/mysqldump.c:6485-6496 | a finished run with --delete-master-logs has purged every log that was there before, up to the log it started |
| `DumpProtocol.PositionIsInNewLog` | client/mysqldump.c:7135-7154 | with --flush-logs the written position lies in a log started by mysqldump or later |
| `DumpProtocol.RestoreAndReplay` | client/mysqldump.c:6159-6243 | loading the dump and replaying the log from the written position gives the server's data |
| `DumpProtocol.RestoreTables` | client/mysqldump.c:6159-6243 | for any set of tables: loading the dump and replaying the log from the written position gives their present rows, if what was logged since does not read other tables |
| `DumpServer.ReplayLocal` | client/mysqldump.c:6159-6243 | such transactions, replayed on a part of a database, give that part of the result |
| `DumpProtocol.SnapshotCoverageIsExact` | client/mysqldump.c:6498-6528 | for every job with --single-transaction and --master-data: a table of the dump is right under every interleaving if and only if its engine honours the snapshot |
| `DumpProtocol.LockTablesMustBeOff` | client/mysqldump.c:5763-5764 | for every job with --master-data under the global lock: all dumped tables are right under every interleaving if and only if lock_tables is off or no database but the first has tables |
| `DumpProtocol.SnapshotRace` | client/mysqldump.c:6498-6528 | for every such job: a commit between the snapshot and the reading of a table that ignores it makes the dump wrong |
| `DumpProtocol.LockTablesRace` | client/mysqldump.c:5763-5764 | the UNLOCK TABLES after a database gives back the global lock; a commit before the next database is dumped makes the dump wrong |
| `DumpProtocol.RunKeepsLocked` | client/mysqldump.c:5622-5788 | as long as no table is dumped after an UNLOCK TABLES, the dumped tables are those of the written position |
| `DumpProtocol.RunDumpsOnlyAsked` | client/mysqldump.c:5434-5480 | no run dumps a table that was not asked for |
| `DumpProtocol.DrainTasks` | client/mysqldump.c:5622-5788 | left alone, the client carries out its plan to the end |
| `Lines.JoinOfSplit` | client/readline.cc:224-262 | splitting a stream into lines loses nothing |
| `Lines.ShortLinesDeliverOneWay` | client/readline.cc:224-262 | while no line is longer than the safe limit, every delivery of a stream is its list of lines |
| `Lines.WholeLinesAreLines` | client/readline.cc:58-75 | those are the stream's lines without newline, and without a CR before a real LF in text mode; an unterminated last line is verbatim |
| `Lines.GlueRestoresLines` | client/readline.cc:236-260 | for one delivery: pieces flagged truncated, glued to the next unflagged one, give back the lines, if and only if text mode did not cut between a CR and its LF |
| `Lines.GlueIsExact` | client/readline.cc:58-75 | for a stream: every delivery glues back to the lines if and only if CRs are kept anyway or no CR LF line has a length that can be cut at its LF |
| `Lines.CutMeansCuttable` | client/readline.cc:236-260 | a delivery that cuts between a CR and its LF does so in a line of such a length |
| `Lines.CutSomewhere` | client/readline.cc:236-260 | a stream with such a line has a delivery with that cut |
| `Lines.DeliverySome` | client/readline.cc:224-262 | every stream can be delivered |
| `Lines.DeliverOneMore` | client/readline.cc:58-75 | delivering one more piece of the rest is a delivery of the stream |
| `LineReader.CapacityBounds` | client/readline.cc:164-188 | doubling ends above half the limit and within the limit, unless the first size is already over it |
| `LineReader.LadderStep` | client/readline.cc:164-188 | a buffer can double exactly until it has the capacity |
| `LineReader.File.Read` | client/readline.cc:197-203 | a read takes a nonempty part of the file that fits, of any size, nothing at its end, or fails |
| `LineReader.LineBuffer.FromFile` | client/readline.cc:108-120 | the new reader has the whole file pending |
| `LineReader.LineBuffer.FromString` | client/readline.cc:127-145 | the new reader has the string pending, with a newline at its end |
| `LineReader.LineBuffer.AppendString` | client/readline.cc:127-145 | one more string is pending behind the others, with a space for the newline between them |
| `LineReader.LineBuffer.Grow` | client/readline.cc:178-187 | the buffer doubles with its content and one place for the sentinel |
| `LineReader.LineBuffer.MakeRoom` | client/readline.cc:162-188 | at most one doubling; no room if and only if the line leaves less than a block of the largest buffer |
| `LineReader.LineBuffer.ShiftDown` | client/readline.cc:190-195 | the unfinished line moves to the front unchanged |
| `LineReader.LineBuffer.Refill` | client/readline.cc:197-220 | what was read follows the unfinished line; at the end of the file a missing newline is supplied once |
| `LineReader.LineBuffer.FillBuffer` | client/readline.cc:154-220 | held and unread bytes together stay the same, in order; the buffer at most doubles; all writes stay in the allocation; nothing is read if and only if the size limit is reached, and otherwise what the file gives |
| `LineReader.LineBuffer.FindLineEnd` | client/readline.cc:231-257 | reading on stops at the first newline, the end of the file, the size limit or an error, and at nothing else; with planned reads, where they were planned to lead |
| `LineReader.LineBuffer.SearchOn` | client/readline.cc:231-257 | one turn of that loop finds the end of the line or has read more of it |
| `LineReader.LineBuffer.InternReadLine` | client/readline.cc:224-262 | the first line of the pending stream lies in the buffer and the rest stays pending, or a piece of at least the safe length does |
| `LineReader.LineBuffer.BatchReadline` | client/readline.cc:58-75 | one call hands out the text of the first pending line, or a piece of it, terminated in place, and keeps every other byte pending |
| `LineReader.LineBuffer.ReadPiece` | client/readline.cc:58-75 | for files and for -e strings: the piece is the next of a delivery of the pending stream and may be edited in place; strings keep their CRs and are never cut |
| `LineReader.LineBuffer.TakeBack` | client/readline.cc:65-74 | edits of the line and its terminator leave what is pending as it was |
| `LineReader.ReadAll` | client/readline.cc:58-75 | whatever the sizes of the reads, reading to the end delivers the whole file or string; lines within the safe limit, and all lines of a string, arrive whole; with reads planned for a delivery, it is that delivery |
| `LineReader.ReadFile` | client/readline.cc:58-75 | for every content and size limit: what is read is a delivery of it, and every delivery, with every cut, is read when the reads are planned for it |
| `LineReader.PlanStops` | client/readline.cc:224-262 | for every delivery there are reads that stop at the end of each of its pieces |
| `LineReader.AllArrived` | client/readline.cc:224-262 | when no line is longer than the safe limit, the pieces are the lines |
| `Scanner.ScanKeepsMark` | client/mysql.cc:2512-2516 | what has been moved to the statement buffer is part of what was accepted |
| `Scanner.StatementEnd` | client/mysql.cc:2556-2584 | the statement ends behind its delimiter and within the line |
| `AddLine.Splitter.Consume` | client/mysql.cc:2458-2700 | accepting text keeps the write cursor, with a space still due, behind the read cursor, and the unread part of the line as given |
| `AddLine.Splitter.SkipParameters` | client/mysql.cc:2520-2545 | a short command ends behind its parameters: at the delimiter, or before the end of a server-side comment |
| `AddLine.Splitter.TakeEscape` | client/mysql.cc:2486-2555 | a backslash does what the scanner says: an escape in a string, \N, a short command with its parameters, or an unknown command |
| `AddLine.Splitter.TakeDelimiter` | client/mysql.cc:2556-2598 | the delimiter hands on the statement the scanner hands on |
| `AddLine.Splitter.TakeLineComment` | client/mysql.cc:2599-2643 | a comment to the end of the line does what the scanner says |
| `AddLine.Splitter.OpenComment` | client/mysql.cc:2644-2660 | so does the start of a block comment |
| `AddLine.Splitter.CloseComment` | client/mysql.cc:2661-2679 | so does its end, after which a space is due |
| `AddLine.Splitter.Classify` | client/mysql.cc:2464-2680 | the branch taken is the scanner's rule for that character; `Splitting` says in characters when each rule applies |
| `AddLine.Splitter.TakeChar` | client/mysql.cc:2680-2699 | so does any other character, with the space that is due before it |
| `AddLine.Splitter.OneStep` | client/mysql.cc:2458-2700 | every turn of the loop is the scanner's step on the line as it was given |
| `AddLine.Splitter.EndLine` | client/mysql.cc:2701-2725 | what is kept of a line without delimiter is what the scanner keeps |
| `AddLine.Splitter.AddLine` | client/mysql.cc:2440-2726 | the in-place loop leaves exactly the statements and the quote, comment and buffer state of the pure scanner, and writes only to the line and its terminator |
| `Splitting.WordsAreKept` | client/mysql.cc:2680-2699 | text without a quote, backslash, delimiter, comment mark or line comment is taken as it is, comments for the server included; a position is inside a hint if and only if one was opened and not closed before it |
| `Splitting.DueSpace` | client/mysql.cc:2692-2698 | the space due behind a comment is put before words that do not start with white space |
| `Splitting.DelimiterSends` | client/mysql.cc:2556-2598 | the delimiter sends the text before it, and the next statement starts right behind the delimiter |
| `Splitting.DelimiterKeepsComment` | client/mysql.cc:2561-2584 | where comments are kept, white space behind the delimiter and a line comment there go with the statement |
| `Splitting.RemarkIsLeft` | client/mysql.cc:2644-2679 | a block comment that is no hint is removed, or kept as it is, and a space is due behind it |
| `Splitting.LineCommentIsLeft` | client/mysql.cc:2599-2643 | `#`, two dashes before white space or the end of the line, and two dashes before anything at the start of a statement: the rest of the line is removed or kept, or sent by itself if nothing comes before it |
| `Splitting.StringIsKept` | client/mysql.cc:2486-2508 | a quoted string is taken as it is, whatever delimiters and comment marks are inside; a backslash escapes its quote except in backticks, in double quotes under ANSI_QUOTES, and under NO_BACKSLASH_ESCAPES |
| `Splitting.CommandRuns` | client/mysql.cc:2509-2545 | a one-character command gets the text so far and the rest of the line; the line goes on behind the next delimiter, or inside a hint at the first end mark |
| `Splitting.PairIsKept` | client/mysql.cc:2503-2555 | `\N` and unknown commands stay in the statement, the latter reported |
| `Splitting.LoneBackslashEnds` | client/mysql.cc:2501-2502 | a backslash that nothing follows is left out and ends the line |
| `Splitting.WhiteIsDropped` | client/mysql.cc:2461-2467 | white space before a statement is dropped |
| `Splitting.LineIsCollected` | client/mysql.cc:2701-2725 | a line of words without delimiter is collected with a newline, unless it is cut or its first nine characters spell DELIMITER |
| `Splitting.CommentLineIsDropped` | client/mysql.cc:2661-2725 | a line inside a removed block comment changes nothing |
| `Splitting.RemarkLineIsDropped` | client/mysql.cc:2644-2725 | a block comment that is a line by itself leaves nothing but, inside a statement, the newline |
| `Splitting.StatementIsSent` | client/mysql.cc:2440-2726 | a line of words and the delimiter completes the statement, which is sent as it was written |
| `Splitting.StatementsAreSent` | client/mysql.cc:2440-2726 | any number of statements on one line are sent one by one and in order |
| `Splitting.CommentBecomesSpace` | client/mysql.cc:2644-2698 | a block comment inside a statement becomes one space, or nothing before white space |
| `Splitting.HintIsSent` | client/mysql.cc:2644-2645 | comments that start with `/*!` or `/*M!` are sent to the server as they were written, whether comments are removed or kept |
| `Tokens.WriteAllTraced` | client/mysql.cc:2458-2716 | whatever tokens a line has, every character of every text is the input character at its recorded origin, or added white space, or was put there by a client command |
| `Tokens.OneReading` | client/mysql.cc:2458-2716 | a line with its ending has one reading only: at every place exactly one token can stand, so the tokens are a grammar of their own |
| `Tokens.WriteAllConserves` | client/mysql.cc:2458-2716 | the origins in all texts together are the positions of what the tokens keep, each once and in order; a kept newline has its own line end as origin |
| `Tokens.KeptIncrease` | client/mysql.cc:2458-2716 | those positions increase and lie in the line or its ending |
| `Tokens.WriteAllJoins` | client/mysql.cc:2692-2716 | two characters become neighbours without having been so if and only if something kept comes behind something left out, line ends included, with no space between |
| `Lexing.StepIsToken` | client/mysql.cc:2458-2700 | with comments kept or removed, every step of the scanner reads the token that stands there: statement text, white space before a statement, a part of a comment, the delimiter with what is kept behind it, a command or a lone backslash |
| `Lexing.ScanReads` | client/mysql.cc:2458-2716 | a scan reads a line and its ending as tokens, or up to where the client quits |
| `Lexing.LineIsTokens` | client/mysql.cc:2440-2726 | so a whole line or piece leads from what is kept before it to what is kept after it |
| `Lexing.ReadsQuiet` | client/mysql.cc:2692-2716 | a whole line of tokens that meet the condition joins nothing, and leaves nothing to be joined to the next line except in a comment |
| `Lexing.PlainIsGentle` | client/mysql.cc:2486-2716 | lines without a backslash and without the word DELIMITER have such tokens only, when comments are removed |
| `Provenance.LineKeepsExclusive` | client/mysql.cc:2644-2691 | a line, cut or whole, keeps strings and block comments apart |
| `Provenance.NeverInStringAndComment` | client/mysql.cc:2644-2691 | after any pieces of input, cut or whole, and any number of steps into any further line, the scanner is not in a string and in a block comment |
| `Batch.Inspect` | client/mysql.cc:2181-2221 | a line with a NUL is told from a clean one, and a byte order mark is passed over in the first line only |
| `Batch.BomIsPassedOver` | client/mysql.cc:2203-2216 | a byte order mark at the start of the input changes nothing that is sent |
| `Batch.Dispatch` | client/mysql.cc:2270-2291 | a line is run as a client command, or edited in place as the scanner says |
| `Batch.HandleLine` | client/mysql.cc:2181-2291 | one line is refused for a NUL, given to a client command or given to the splitter, after a byte order mark at the start; nothing but the line changes |
| `Batch.HandleLent` | client/mysql.cc:2289-2291 | the splitter edits the reader's buffer in place and what is pending there stays |
| `Batch.Finish` | client/mysql.cc:2295-2303 | the last statement is sent without its trailing control characters, unless nothing is left |
| `Batch.SentForLines` | client/mysql.cc:2160-2304 | when every line fits, what is sent depends on the lines of the stream only |
| `Batch.ReadAndExecute` | client/mysql.cc:2160-2304 | for every file and every way its reads are chopped, and for -e strings, the client sends exactly what the scanner makes of the lines |
| `Provenance.FileIsTokens` | client/mysql.cc:2160-2304 | for every delivery of a stream and both comment modes, byte order mark, line ends and client commands included, the stream is read as tokens, and what is collected and sent is what writing them down gives |
| `Provenance.OneFileReading` | client/mysql.cc:2160-2304 | that reading is the only one |
| `Provenance.PieceOfStream` | client/readline.cc:58-75 | a piece and its line end are the next characters of the stream |
| `Provenance.EveryCharacterIsAccountedFor` | client/mysql.cc:2160-2304 | for every delivery of a stream: the origins in everything sent, with the trimmed last statement, and in what is left over are exactly the positions of what the tokens keep, in increasing order; so no character of the stream is sent twice, moved or lost, except the byte order mark, white space before a statement, removed comments, delimiters, commands, lone backslashes, and line ends and CRs that are not kept; what is trimmed is not graphic |
| `Provenance.JoinedWhereTripped` | client/mysql.cc:2692-2716 | for every delivery of a stream, the exact places where characters are joined that were apart in it |
| `Provenance.NothingIsJoined` | client/mysql.cc:2644-2716 | for all streams of whole lines without client commands inside a statement, pairs where a space is due, comments kept right behind a delimiter and lines that end in what could be a DELIMITER command: adjacent non-space characters of everything sent were adjacent in the stream |
| `Provenance.PlainFilesAreGentle` | client/mysql.cc:2486-2716 | lines without a backslash and without the word DELIMITER meet its condition when comments are removed and named commands are off: removing comments joins nothing |
| `Provenance.PairBehindComment` | client/mysql.cc:2503-2508 | a backslash pair right behind a comment is joined to what was before it |
| `Provenance.CommandInside` | client/mysql.cc:2509-2519 | so is a character behind a command that leaves the text alone |
| `Provenance.DelimiterLine` | client/mysql.cc:2705-2716 | so is the first character of a line behind `x;delimiter f`, because that line loses its newline |
| `Arguments.Remove` | client/mysql.cc:4834-4835 | one character is deleted and the text behind it moves down with its terminator |
| `Arguments.LocateIn` | client/mysql.cc:4806-4824 | the argument starts where `Arguments.LocateCall` says |
| `Arguments.LocateCall` | client/mysql.cc:4806-4824 | in every line: behind the command, the white space and an opening quote, or nowhere if the line ends with the command; a short command is a backslash and any character, a long one extends to white space |
| `Arguments.ReadArgument` | client/mysql.cc:4825-4847 | reading resolves escapes and doubled quotes; in GET mode the resolved text and a terminator stand in the line, in CHECK mode the line is untouched |
| `Arguments.GetArg` | client/mysql.cc:4792-4848 | CHECK and GET find an argument on the same lines and at the same start, and GET leaves exactly the argument of `Arguments.ArgumentOfCall` |
| `Arguments.ArgumentOfCall` | client/mysql.cc:4792-4848 | for every line, by its parts: the argument is the characters with their escapes resolved, up to the closing quote or the first space; there is none if and only if it would be empty or its quote is not closed; for a short command only a backslash escapes, in backticks too |
| `Arguments.EveryLineIsACall` | client/mysql.cc:4792-4848 | every line has such parts, so the law before covers them all |
| `Arguments.BareArgument` | client/mysql.cc:4817-4845 | a bare text without space and backslash is the argument of a long or short command, alone or before more text |
| `Arguments.ParseQuoted` | client/mysql.cc:4826-4845 | every text comes back from its quoted form, for each of the three quotes |
| `Arguments.QuotedArgument` | client/mysql.cc:4792-4848 | a command followed by a quoted text has that text as its argument |
| `WordIndex.MatchesCount` | client/completion_hash.cc:158-171 | the matches of a text are the added words that start with it, as often as they were added |
| `WordIndex.IndexWord` | client/completion_hash.cc:220-226 | entering a word under its prefixes makes the table an index of the longer word list |
| `WordIndex.CountTells` | client/completion_hash.cc:187-201 | a longer prefix has as many matches if and only if all matches start with it |
| `WordIndex.OldestIsKey` | client/completion_hash.cc:136-156 | the oldest match is the text itself if and only if every longer match was added after it |
| `WordIndex.LaterWordIsMissed` | client/completion_hash.cc:136-156 | so an added word can be missed |
| `Completion.HashTable.Find` | client/completion_hash.cc:113-133 | the bucket of a key is found for any hash function and size, and nothing when the key has none |
| `Completion.HashTable.Update` | client/completion_hash.cc:60-111 | one key gets the word in front of its list and no other key changes; only an empty key fails |
| `Completion.HashTable.AddBucket` | client/completion_hash.cc:93-110 | a new key gets one bucket at the front of its slot |
| `Completion.HashTable.AddWord` | client/completion_hash.cc:220-226 | the table indexes the words added before and this one |
| `Completion.HashTable.Clean` | client/completion_hash.cc:205-210 | the table indexes no word |
| `Completion.HashTable.FindAllMatches` | client/completion_hash.cc:158-171 | exactly the added words with that prefix, newest first, with multiplicity and with their number; null if and only if there are none or the text is empty |
| `Completion.HashTable.FindLongestMatch` | client/completion_hash.cc:173-202 | a bucket of exactly the words that start with the query, and the length of their longest common prefix |
| `Completion.HashTable.Exists` | client/completion_hash.cc:136-156 | true if and only if the oldest match of the key is the key |
| `Completion.NoBucketTwice` | client/completion_hash.cc:93-108 | a chain never comes back to a bucket |
| `Generator.CommandGenerator.Advance` | client/mysql.cc:2932-2955 | the next place lists what is left, and is further on by slot, bucket or entry |
| `Generator.CommandGenerator.Walk` | client/mysql.cc:2930-2957 | the next word of the walk is returned, or the walk is over |
| `Generator.CommandGenerator.NextMatch` | client/mysql.cc:2895-2912 | with a text, the next match of its bucket, or null |
| `Generator.CommandGenerator.Next` | client/mysql.cc:2884-2960 | each call returns the next word of the listing that the first call started, then null |
| `Generator.CommandGenerator.List` | client/mysql.cc:2870-2960 | with a text, all matches in order; with the empty text, every nonempty added word as often as it was added; and an end; also after a listing that was given up |
| `Generator.CountBuckets` | client/mysql.cc:2932-2940 | a chain lists the words that are keys of its buckets, as often as they were added |
| `Generator.WalkListsAll` | client/mysql.cc:2914-2957 | although each word is stored under all its prefixes, the walk has it once per addition |
| `ImportPool.StepKeepsInv` | client/mysqlimport.c:618-752 | every step of every thread keeps the invariant |
| `ImportPool.CounterBoundsWorkers` | client/mysqlimport.c:705-729 | in every interleaving the counter is the live workers and the slot being filled, at most opt_use_threads |
| `ImportPool.EachFileOnce` | client/mysqlimport.c:705-729 | at all times each file goes to at most one worker or is reported, never both, and in the end to exactly one |
| `ImportPool.EachFileIsLoadedOrFailed` | client/mysqlimport.c:618-752 | when main is done, each file was given to the server by exactly one `write_to_table`, or no thread could be created for it, or a call of its worker failed, and exactly one of these |
| `ImportPool.MissedFilesHadFailures` | client/mysqlimport.c:618-752 | there are no more files that were not loaded than calls that failed; if all calls succeed, every file was loaded exactly once |
| `ImportPool.WorkerSettles` | client/mysqlimport.c:618-656 | a worker is done with its file in the step that gives it to the server or loses it, and in no other |
| `ImportPool.MutexesOutliveWorkers` | client/mysqlimport.c:734-745 | when main destroys a mutex it is free and all workers have ended for good; no destroyed mutex is used |
| `ImportPool.StepsGoOn` | client/mysqlimport.c:705-752 | no step takes the program back |
| `ImportPool.NeverStuck` | client/mysqlimport.c:707-714 | in every reachable state some threads can take the program on |
| `ImportPool.AWorkerCanGoOn` | client/mysqlimport.c:618-656 | while main is outside its critical section and a worker has not ended, some worker can go on |
| `ImportPool.CanFinish` | client/mysqlimport.c:734-752 | so every run can be completed: there is no deadlock |
| `Flashback.Printer.Enqueue` | client/mysqlbinlog.cc:717-734 | the queue's first event carries the end-of-statement flag and no other does |
| `Flashback.Printer.PrintReversed` | client/mysqlbinlog.cc:799-804 | the whole output, last event first, ends up in the first event's buffer |
| `Flashback.Printer.DeleteQueued` | client/mysqlbinlog.cc:807-812 | every queued event but the last is deleted, none twice |
| `Flashback.LogEvent.Delete` | client/mysqlbinlog.cc:1411-1412 | an event can be deleted once only |
| `Flashback.Printer.PrintRowEvent` | client/mysqlbinlog.cc:708-825 | at the end of a statement its output is in the last event, and the queue is empty |
| `Flashback.Printer.ProcessEvent` | client/mysqlbinlog.cc:1311-1413 | one event changes queue, cache and held outputs as specified, and is deleted at once or stays queued |
| `Flashback.FlashbackLog` | client/mysqlbinlog.cc:3356-3384 | for every log of statements and transactions the output of every one of them is written, from the last to the first, then COMMIT, and every event of a complete log has been deleted |
| `Flashback.AllIsWritten` | client/mysqlbinlog.cc:3372-3384 | nothing of a log is left out of the output, START TRANSACTION and COMMIT marks included |
| `Flashback.TransactionsAreUndone` | client/mysqlbinlog.cc:3372-3384 | a log of complete transactions is written transaction by transaction from the last to the first, each as START TRANSACTION, its statements backwards, and COMMIT |
| `Flashback.StatementOutputAt` | client/mysqlbinlog.cc:717-812 | a statement is written as its table maps in order and then its rows from the last to the first, the last with the end-of-statement flag |
| `Flashback.WriteBackwards` | client/mysqlbinlog.cc:3372-3384 | the held outputs are written from the last to the first, then COMMIT |
| `Flashback.FeedLog` | client/mysqlbinlog.cc:1311-1413 | every log of statements leaves one output per statement, an empty queue and nothing undeleted |
| `Flashback.ReversedAt` | client/mysqlbinlog.cc:720-725 | in a reversed statement the flag is on the last event only |
| `Flashback.RowsInReverse` | client/mysqlbinlog.cc:3372-3384 | flashback prints every row event once, in exact reverse order |
| `Flashback.FlashbackRestores` | client/mysqlbinlog.cc:3372-3384 | if each printed event inverts its original, replaying the output restores the state before the log |
| `SqlText.QuoteForLike` | client/mysqldump.c:2141-2160 | the quoted name is the specified literal |
| `SqlText.QuotedNameMatchesItself` | client/mysqldump.c:2119-2160 | read as a literal and then as a LIKE pattern it matches that name and no other text, for every name |
| `SqlText.PatternMatchesName` | client/mysqldump.c:2126-2138 | the pattern that the server reads matches a text if and only if it is the name |
| `SqlText.LikeUnescapes` | client/mysqldump.c:2126-2138 | the literal's value is the name with its wildcards and backslashes escaped once |
| `SqlText.FieldEscape` | client/mysqldump.c:3986-4014 | mysqldump's version writes the escaped body between quotes |
| `SqlText.FieldEscapeInto` | client/mysqlimport.c:593-614 | mysqlimport's version writes the same body into a buffer, and nothing else there |
| `SqlText.EscapedFieldReads` | client/mysqldump.c:3979-4014 | the server closes the literal exactly at its last quote and reads the user's string, a lone last backslash as itself |
| `SqlText.UnescapeEscapeBody` | client/mysqldump.c:3992-4011 | the literal's value is the user's string |
| `XmlText.PrintXmlCdata` | client/mysqldump.c:2343-2366 | the output is the specified sections |
| `XmlText.NoFalseEnd` | client/mysqldump.c:2350-2362 | no printed character completes an end mark that the text does not have, whatever run of brackets is before it |
| `XmlText.CdataRoundTrip` | client/mysqldump.c:2343-2366 | reading the sections by section 2.7 of XML 1.0 and joining them gives the text between two newlines |
| `InsertBatcher.DumpRows` | client/mysqldump.c:4516-4550 | the loop writes the specified statements |
| `InsertBatcher.BatchesAreGreedy` | client/mysqldump.c:4516-4550 | all rows once and in order; every INSERT of two or more rows has text length plus 6 below the limit; a new one starts only for the first row or when the next row would break that bound |
| `InsertBatcher.GreedyIsUnique` | client/mysqldump.c:4309-4312 | that is the only grouping of the rows with these properties |

## Left out

- Connecting, TLS, query execution and fetching results: calls into a library.
- Option parsing, usage texts, prompts, pager, history and result formatting: user interface.
- `add_line` in binary mode and multi-byte characters: the model takes a single-byte character set and text mode.
- `hashpjw`: the index is proved for any hash function.
- `get_arg` in GET_NEXT mode: it starts behind an earlier argument and has the same loop.
- The condition variable of the import pool has no state: a timed wait may end at any time, so a signal adds no behaviour.
- `safe_exit` in a worker (a failed connect, and other errors without --force): it ends the process.
- The three output caches of mysqlbinlog are one: they are filled and emptied together and in the same order.
- Filtered events, the STOP event and the review options of flashback.
- --dump-slave and GTID positions, views, triggers and tablespaces in the dump protocol.
- Overflow of `total_length` in the batcher and of the 32-bit buffer size in the reader: callers' limits are far below, and the reader's constructor requires it.
- Collations in LIKE: characters are compared as they are.
- DumpProtocol.RestoreAndReplay: asks that the dumped tables are all the tables of that moment, because a logged transaction may be any function of the whole database; `DumpProtocol.RestoreTables` is the form for other dumps.
