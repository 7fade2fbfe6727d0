# Verified model of the MariaDB client tools

This project models the parts of MariaDB's client programs whose correctness is
not obvious from reading them, and proves what they are there for:

- the statement lexer of the interactive client, which edits the input line in
  place while it collects statements over many lines;
- the completion table: a chained hash table that indexes every prefix of every
  word, its longest-match search and its resumable generator;
- the asynchronous connection pool, a small protocol of a free queue, a poll set
  and completions;
- the binary log reader: the start/stop window over several logs, the
  demultiplexing of LOAD DATA streams, and flashback;
- the quoting, batching and trigger framing of the dump tool together with the
  programs that read its output back, and the check tool's repair queue.

Each part has the same shape. A pure function or state machine says what the
program computes. Lemmas prove the promised property of it over every input and
every sequence of steps. A class or method with the program's own variables,
buffers, pointers and loops is proved to compute that function. Where function and
method share a step, further lemmas say what the step does in terms of the input
alone: of the line, the log, the stream or the reports.

| file | content |
|---|---|
| `Basics.dfy` | options, concatenation, texts inside texts |
| `LineLexer.dfy` | the lexer as an append-only automaton |
| `LineReader.dfy` | the lexer as it is: two cursors over one mutable line |
| `StatementText.dfy` | quote state and conservation of text, over any lines |
| `StatementMeaning.dfy` | what a piece of text, strings and comments stands for |
| `LineParts.dfy`, `CommandEnds.dfy`, `LineExamples.dfy` | what a whole line of statements and commands stands for, where commands end, and two lines written out |
| `ServerComments.dfy`, `ServerFlag.dfy` | comments for the server: the delimiter, and the lexer's memory of them |
| `CommentMarks.dfy` | where a text opens a comment, read from scratch |
| `StatementComments.dfy`, `CommentExact.dfy` | exactly when a comment reaches the server, over any lines |
| `LineCopies.dfy`, `NeatLines.dfy` | a condition on lines and replies under which none does |
| `CommentJoins.dfy` | an input for each way in which one does |
| `CommandArguments.dfy` | what one-letter commands are handed |
| `WordIndex.dfy`, `CompletionHash.dfy`, `CompletionGenerator.dfy` | completion |
| `PoolModel.dfy`, `ConnectionPool.dfy` | the connection pool |
| `LoadDemux.dfy`, `LoadFailures.dfy` | the binary log reader: LOAD DATA files, and exactly when reading them fails |
| `Flashback.dfy`, `FlashbackOutput.dfy` | flashback: what its output undoes, and the output itself, read off the log |
| `OutputWindow.dfy` | the start/stop window |
| `SqlLiterals.dfy`, `Quoting.dfy`, `Identifiers.dfy`, `CommandLines.dfy` | quoting and its readers |
| `InsertBatching.dfy`, `TriggerExtraction.dfy`, `TriggerRoundTrip.dfy` | dump and import |
| `RepairQueue.dfy`, `RepairLists.dfy` | the check tool's queue, and the lists as they come out |

## What stands for the outside world

- Client commands and the server are one function from the requests made so far
  to a reply (`LineLexer.Client.handle`). It may answer anything. Where a property
  needs a well-behaved client, the lemma asks it of the requests of that run and
  their replies only: `Orderly`, that no command opens a quote in a text without
  open quotes, and `Tidy`, that none opens a comment either. Commands that clear
  the text or leave it alone are of that kind (`GentleIsTidy`).
- Character classes (`isSpace`) and the table of commands are parameters.
- `poll` is a method of which only the contract is used: it reports some
  non-empty set of polled connections, with any outcome for each. Whether a query
  could be sent is a parameter.
- Directories are maps from names to contents. The verdicts of the GTID filter
  and of the server id list are part of each event.
- The hash function of the completion table is any function, so every kind of
  collision is included.
- For flashback, "each printed row event inverts its original" is the hypothesis
  `Inverts`: `undo(apply(t, e), e) == t` for each change of the log, at the state
  that the changes before it lead to. For tables as multisets of rows it is
  proved to hold exactly where every delete and update finds its row.

## Where the code does not do what one would expect

- Executable comments (opened with `/*!` or `/*M!`) stay in the statement text, and
  delimiters are looked for inside them: `/*!1;*/;` sends `/*!1`. Such a comment is
  sent whole exactly if the delimiter does not start inside it
  (`ServerCommentIsSentIff`). A comment nested in one takes the closing mark of both
  with it (`NestedCommentIsUnclosed`).
- The flag that tells where the arguments of a command inside such a comment end is
  reset with every line and never set by `/*M!`. `FlagAgreesIff` says exactly when it
  agrees with the text.
- Other comments are removed, but what then stands side by side can form a mark
  that was never read as one: a delimiter that splits the opening of an executable
  comment leaves an opening; a command inside a mark, and the newline that a
  DELIMITER line loses, let its halves meet (the server gets `5-- 1` for `5-\p- 1`);
  a comment right behind two dashes is replaced by the white space that makes the
  dashes a comment, and so is a line comment or a lone backslash there. Each has its
  lemma in `CommentJoins.dfy`. `Smooth` is the executable condition that none of this
  happens on the way through the lines, and no comment stays in the text or reaches
  the server if and only if it holds (`CommentsStayOutIff`).
- A flashback with a table filter prints a statement whole or not at all,
  depending on its last row alone; it is right exactly for statements whose rows
  are all kept or all hidden.
- A name quoted for ANSI mode survives the trip through a client command exactly
  if it has no backslash.
- The trigger extraction joins the plain text around an extracted trigger before
  it goes on, so that two texts without a mark can form one. `RoundTripIff` gives
  the exact condition on a script for the round trip to succeed.
- The dump tool counts four bytes that it never writes: a row that would fit by no
  more than four bytes is refused (`FittingRowIsRefused`, `RowJoinsIff`).
- `wait_all` promises that all connections become idle. It ends, with all of
  them free, exactly if none was held before and every query in flight was to
  release its connection; otherwise it polls for ever, and the model reports that.
- In silent mode the check tool does not move on to the next table name. The
  repair queues are the same nevertheless.

## Model

| member | source | states |
|---|---|---|
| LineReader.Reader.AddLineInPlace | mariadb/client/mysql.cc:2596-2882 | The in-place lexer refines the append-only automaton: for every line and every state, buffer, open quote, comment flag, mode, requests made and quit flag are those of `AddLine`, and no byte behind the line's terminator is written |
| LineReader.Reader.StepInPlace | mariadb/client/mysql.cc:2614-2855 | One turn of the loop keeps the write cursor behind the read cursor (one byte more while a space is owed) and the unread part of the line untouched, and is one step of the automaton |
| LineReader.Reader.Backslash | mariadb/client/mysql.cc:2642-2711 | The backslash branch on the edited line is the automaton's, including a lone backslash at the end, `\N`, commands and unknown commands |
| LineReader.Reader.Command | mariadb/client/mysql.cc:2665-2701 | A one-letter command is handed the collected text and the rest of the line, and its parameters are skipped to the delimiter in force after the command, or to the end of the server comment |
| LineReader.Reader.EndStatement | mariadb/client/mysql.cc:2712-2754 | At a delimiter exactly the accepted text is handed over, under the mode it was read in, and reading goes on behind the whole of that delimiter, with an empty statement and the mode of the reply, unless the client quits |
| LineReader.Reader.TextInPlace | mariadb/client/mysql.cc:2755-2855 | Comments and ordinary characters on the edited line act as in the automaton; a character and its owed space fit into what has been read |
| LineReader.Reader.FinishInPlace | mariadb/client/mysql.cc:2857-2880 | The end of the line adds the newline unless a DELIMITER command or a comment is pending, writes no further than the terminator, and drops nothing accepted earlier |
| LineReader.Reader.SkipParameters | mariadb/client/mysql.cc:2688-2700 | The parameter skip ends right behind a delimiter before which none starts, or at the end of the line if none starts at all |
| LineReader.Reader.SkipToCommentEnd | mariadb/client/mysql.cc:2678-2688 | Inside a server comment the skip ends at an end-of-comment mark before which there is none, or at the end of the line if there is none |
| CommandEnds.ParamsEnd | mariadb/client/mysql.cc:2688-2700 | The same of the automaton, said with the delimiter and the line alone |
| CommandEnds.CommentEnd | mariadb/client/mysql.cc:2678-2688 | The same for the end of a server comment |
| StatementText.QuoteStateIsRescan | mariadb/client/mysql.cc:2415-2431 | Over any lines: the remembered open quote is what a fresh scan of the collected text finds, and every text handed to a command or the server at any point has all its quotes closed, if no command of the run opens a quote in a text without open quotes |
| StatementText.StepConsistent | mariadb/client/mysql.cc:2642-2855 | Every branch of the lexer keeps quote flag and text in agreement, a command that opens no quote included |
| StatementText.NothingAcceptedIsLost | mariadb/client/mysql.cc:2857-2880 | Over any lines and for every client: accepted text stays in front of the collected statement until it is handed over whole, also when a line ends inside a comment |
| StatementText.StepKeepsText | mariadb/client/mysql.cc:2614-2855 | A step extends the accepted text or hands over all of it |
| StatementText.CommentLineIsInert | mariadb/client/mysql.cc:2800-2880 | A line inside a comment that was opened earlier, without the mark that ends it, changes nothing and calls nobody, whatever delimiters, quotes or commands it holds |
| CommentExact.CommentsStayOutIff | mariadb/client/mysql.cc:2596-2882 | Over any whole lines from a fresh start: no text handed over, and not the text still collected, opens outside its quotes a comment that the server would ignore, in slashes and stars or to the end of the line, if and only if the lexer joins no mark on its way |
| StatementComments.NoCommentIsHandedOver | mariadb/client/mysql.cc:2596-2882 | One half of it over any lines at all, cut short or not and also if the client quits: without a joined mark no text handed over opens such a comment |
| CommentExact.LexDoomed | mariadb/client/mysql.cc:2596-2882 | The other half: once a mark is joined, whatever follows on the line hands the comment over or leaves it in the text for good |
| CommentExact.JoinDooms | mariadb/client/mysql.cc:2712-2836 | Each of the joins does it: a delimiter behind the opening of an executable comment, a star behind a slash left by a command or another line, white space behind two dashes |
| NeatLines.NeatLinesAreSmooth | mariadb/client/mysql.cc:2596-2882 | For comments in slashes and stars the condition can be read off lines and replies: it holds if no line is cut short or holds a DELIMITER command, no delimiter can split an opening, and no command leaves a slash at the end of the text |
| LineCopies.DroppedNewline | mariadb/client/mysql.cc:2857-2875 | A line drops its newline only if it holds a DELIMITER command, and then what it leaves is its own last character, or the one before a lone backslash |
| StatementComments.StepTracks | mariadb/client/mysql.cc:2642-2855 | The invariant behind it, kept by every step that joins nothing: half a mark that was read on this stretch of the line goes on as the opening of an executable comment or as no mark, or a removed comment owes a space |
| CommentMarks.QuietIffBare | mariadb/client/mysql.cc:2755-2801 | One pass over a text decides whether it opens, at any place outside its quotes, a comment by the tests the lexer makes |
| CommentJoins.SplitOpeningIsSent | mariadb/client/mysql.cc:2712-2754 | Every delimiter that can split an opening does send an open comment, for every client |
| CommentJoins.CommandJoins | mariadb/client/mysql.cc:2665-2676 | A command inside any plain text that leaves the text alone lets what stands behind it join what stands before it |
| CommentJoins.CommandJoinsMark | mariadb/client/mysql.cc:2665-2676 | So a slash and a star on both sides of it make the lexer send a comment mark |
| CommentJoins.CommandJoinsDashes | mariadb/client/mysql.cc:2665-2676 | And for `5-\p- 1` it sends `5-- 1`, where the dashes open a line comment |
| CommentJoins.CommentBehindDashesIsJoined | mariadb/client/mysql.cc:2800-2835 | A comment right behind two dashes, whatever it holds, makes the lexer send `5-- 1`, where the dashes open a line comment, for every client |
| CommentJoins.LineEndBehindDashesIsJoined | mariadb/client/mysql.cc:2755-2798 | A line comment or a lone backslash right behind two dashes leaves them in front of the newline, where they open a line comment |
| CommentJoins.DelimiterLineJoinsMark | mariadb/client/mysql.cc:2857-2880 | A DELIMITER line that ends in a slash drops its newline, and a star that starts the next line makes the lexer send a comment mark |
| CommentJoins.DelimiterLineJoinsDashes | mariadb/client/mysql.cc:2857-2880 | A DELIMITER line that ends in a dash, and a dash and a space that start the next line, make it send a line comment |
| CommandArguments.ShortCommandsCanReadArguments | mariadb/client/mysql.cc:2661-2676 | Over any lines, what a one-letter command is handed starts with a backslash and a letter, as reading its argument relies on |
| StatementMeaning.LineMeaning | mariadb/client/mysql.cc:2596-2882 | A line of plain text, strings, comments and executable comments adds exactly the text they stand for, strings and executable comments verbatim, other comments as at most one space, leading space dropped, and then a newline, unless nothing is collected or a DELIMITER command ends the text |
| StatementMeaning.StatementIsSent | mariadb/client/mysql.cc:2712-2754 | Followed by the delimiter, exactly that text is sent first, whatever delimiters its strings and comments hold and whatever follows on the line |
| LineParts.LineIsParts | mariadb/client/mysql.cc:2596-2882 | A line of any number of statements, one-letter commands, unknown commands and `\N`, that starts outright, in a string or in a comment, and ends in text, a line comment, a lone backslash, an open string or an open comment: it makes exactly the requests of its parts, in order, each with its own text and under the mode that the reply before it left, goes on behind each delimiter, parameter and comment end, and leaves exactly the text, quote and comment state of what stands behind the last |
| LineParts.PartGoes | mariadb/client/mysql.cc:2642-2754 | One such part is read to its end and makes its request and no other |
| LineParts.LineOfStatements | mariadb/client/mysql.cc:2712-2754 | A line of any number of statements, each ended by the delimiter in force there, adds exactly these statements to the requests |
| LineParts.StatementsAreSent | mariadb/client/mysql.cc:2712-2754 | Each is sent once, in order, with the text that its own segments stand for |
| LineParts.TwoStatementsAreSent | mariadb/client/mysql.cc:2712-2754 | Written out for two: the second has exactly the text of the segments behind the first delimiter, under the mode that the first reply left |
| LineExamples.TwoOnALine | mariadb/client/mysql.cc:2712-2754 | Two such lines in full: with the delimiter `//`, `1//2//` sends `1` and then `2` |
| LineExamples.StatementBehindCommand | mariadb/client/mysql.cc:2688-2700 | And `\u t;1;` sends `1` behind the command |
| LineParts.BackslashKeepsQuoteOpen | mariadb/client/mysql.cc:2642-2664 | A quote behind a backslash leaves a string open in single quotes, and in double quotes that are not ANSI, if backslashes escape, and ends it otherwise |
| LineParts.CommandLineIff | mariadb/client/mysql.cc:2415-2431 | A line goes to a command as a whole exactly outside quotes and comments, where no statement is begun or named commands are on; every other line is statement text |
| StatementMeaning.QuotedStep | mariadb/client/mysql.cc:2642-2664 | A quoted string is kept character by character under the escape rules of its quote and mode |
| StatementMeaning.CommentStep | mariadb/client/mysql.cc:2800-2835 | A comment leaves only an owed space |
| StatementMeaning.OpeningStep | mariadb/client/mysql.cc:2837-2842 | The opening of an executable comment is kept, and noticed if it is `/*!` |
| StatementMeaning.NestedStep | mariadb/client/mysql.cc:2800-2842 | A comment inside a noticed executable comment goes on to the second closing mark |
| ServerComments.ServerCommentIsSentIff | mariadb/client/mysql.cc:2712-2754 | An executable comment followed by the delimiter is sent first, and whole, if and only if no delimiter starts inside it; otherwise it is cut there |
| ServerComments.CutIsSent | mariadb/client/mysql.cc:2712-2754 | What is sent then is the comment up to the first delimiter inside it |
| ServerComments.SemicolonCutsServerComment | mariadb/client/mysql.cc:2712-2754 | `/*!1;*/;` sends `/*!1` |
| ServerComments.NestedCommentIsUnclosed | mariadb/client/mysql.cc:2817-2842 | `/*!`, a comment, any text and a closing mark send `/*!` alone, whatever the comment and the text hold |
| ServerFlag.FlagAgreesIff | mariadb/client/mysql.cc:2837-2842 | Behind a line of segments the flag for executable comments is what a fresh reading of the text finds, if and only if the last mark on the line is one that the lexer notices, or there is none and the text was outside before |
| ServerFlag.FlagMissesSecondMark | mariadb/client/mysql.cc:2837-2840 | The flag misses `/*M!` |
| ServerFlag.FlagMissesEarlierLine | mariadb/client/mysql.cc:2603-2603 | The flag misses an executable comment that an earlier line opened |
| CompletionHash.HashTable.constructor | mariadb/client/completion_hash.cc:42-57 | A new table of any positive size is valid and empty |
| CompletionHash.HashTable.Update | mariadb/client/completion_hash.cc:60-111 | The table refines a map from prefixes to word lists, newest first; the update puts the word in front of its key's list, an empty key fails, and distinct keys, right slots and exact counts are kept |
| CompletionHash.HashTable.Find | mariadb/client/completion_hash.cc:113-133 | Lookup is exact despite collisions: it finds a bucket iff the key is indexed, and the bucket holds exactly the key's words and their count |
| CompletionHash.HashTable.AddWord | mariadb/client/completion_hash.cc:220-226 | After any sequence of added words the table indexes exactly their non-empty prefixes, each with the added words that start with it |
| CompletionHash.HashTable.FindAllMatches | mariadb/client/completion_hash.cc:158-171 | The bucket of exactly the added words that start with the text, or nothing iff there is none |
| CompletionHash.HashTable.FindLongestMatch | mariadb/client/completion_hash.cc:173-202 | The length is that of the longest common prefix of all added words that start with the query, and the bucket holds exactly those words |
| CompletionHash.LinkedInsert | mariadb/client/completion_hash.cc:107-108 | Linking a new bucket in front keeps every bucket reachable in its own slot and chains acyclic |
| WordIndex.LongerMatchesFewer | mariadb/client/completion_hash.cc:192-199 | Equal counts mean equal word lists, which is what the search by counts relies on |
| WordIndex.CommonPrefixEnds | mariadb/client/completion_hash.cc:192-201 | Where one more character lowers the count, or the word ends, the longest common prefix ends |
| WordIndex.AddWordIndexes | mariadb/client/completion_hash.cc:220-226 | Adding a word under all its prefixes makes the index of the words the index of one word more |
| CompletionGenerator.WalkYieldsAllWords | mariadb/client/mysql.cc:3070-3113 | The walk over all slots, chains and entries yields every added non-empty word exactly as often as it was added |
| CompletionGenerator.NextInWalk | mariadb/client/mysql.cc:3086-3113 | One call yields the first word left and leaves the cursor at the rest of the walk, and it terminates |
| CompletionGenerator.TakeEntry | mariadb/client/mysql.cc:3087-3111 | One entry is taken, yielded iff it is the bucket's whole key, and the cursor moves on to the next entry, bucket or slot |
| CompletionGenerator.EnterSlot | mariadb/client/mysql.cc:3076-3084 | The next used slot is found, and no slot with words is passed over |
| CompletionGenerator.Generator.All | mariadb/client/mysql.cc:3040-3116 | Called until it returns nothing, the generator yields exactly the matching words in table order for a text, and all added words for an empty text |
| PoolModel.EveryRunKeepsInv | mariadb/client/connection_pool.cc:119-220 | In every reachable state the queue has no duplicates, `in_use` is false exactly for queued connections, polled ones are in use, and every query has completed or is in flight exactly as often as it was sent |
| PoolModel.EveryRunReports | mariadb/client/connection_pool.cc:119-157 | Over any run the handlers are called for exactly what the polls reported, each with the query its connection was running and with the outcome reported for it, in the order of polls and connections |
| PoolModel.PollStep | mariadb/client/connection_pool.cc:119-157 | A poll with any non-empty report keeps that and leaves strictly fewer queries in flight |
| PoolModel.CompleteFromPolled | mariadb/client/connection_pool.cc:129-141 | Exactly the reported connections leave the poll set |
| PoolModel.PollReports | mariadb/client/connection_pool.cc:129-157 | One poll calls the handlers of exactly the reported connections, in ascending order, each with its own query and reported outcome, and queues exactly those of them that were to be released |
| PoolModel.PollStates | mariadb/client/connection_pool.cc:129-157 | And every connection: free again iff reported and to be released, polled still iff not reported |
| PoolModel.QuietMeansSettled | mariadb/client/connection_pool.cc:147-157 | With nothing in flight, each query has completed, with its own text, handler and context, exactly as often as it was sent; failed sends never |
| PoolModel.DrainedIsFree | mariadb/client/connection_pool.cc:216-220 | Then all connections are free iff none was held and every query in flight was to release its own |
| PoolModel.FullQueue | mariadb/client/connection_pool.cc:218-218 | The length test of the waiting loop is true iff no connection is in use |
| ConnectionPool.Pool.constructor | mariadb/client/connection_pool.cc:164-188 | Initially every connection is queued once and none is polled |
| ConnectionPool.Pool.CompleteQuery | mariadb/client/connection_pool.cc:147-157 | The completed query is recorded with its own text and context, and the connection queued and marked free iff it was to be released |
| ConnectionPool.Pool.Dispatch | mariadb/client/connection_pool.cc:129-143 | The loop calls the handlers of exactly the reported queries, in poll set order, each with its own query and reported outcome, and its abort for a wrong count cannot be reached |
| ConnectionPool.Pool.WaitForCompletions | mariadb/client/connection_pool.cc:119-157 | One wait, for any report of the poll: the completions added are those of the reported connections, ascending, with query and outcome; the queue grows by the released ones; every connection is free again iff reported and to be released; exactly the reported entries leave the poll set |
| ConnectionPool.Pool.GetConnection | mariadb/client/connection_pool.cc:44-51 | Waits by polls only, then takes the head of the queue; it can only hang when nothing is free and nothing in flight |
| ConnectionPool.Pool.AddToPollset | mariadb/client/connection_pool.cc:105-112 | Exactly that connection becomes polled, under its own descriptor |
| ConnectionPool.Pool.ExecuteAsync | mariadb/client/connection_pool.cc:190-210 | Polls and then one send: the head of the queue is in use and polled with exactly this query, handler and release flag and the query is recorded; a failed send puts the connection back at the end and records nothing |
| ConnectionPool.Pool.WaitAll | mariadb/client/connection_pool.cc:216-220 | Terminates with nothing in flight, every sent query completed exactly once, and all connections free iff none was held and all were to be released |
| LoadDemux.RunInv | mariadb/client/mysqlbinlog.cc:382-559 | For any interleaving: every open id has a file of its own holding its latest Begin block and exactly its later Append blocks in order; every name handed out was its file's at Execute, is handed out once, and the file is unchanged since |
| LoadFailures.RunFailsIff | mariadb/client/mysqlbinlog.cc:316-559 | From any directory, a log stops with an error iff it begins some file more often than its name has versions left in the directory; Append and Execute events never stop it, of unknown files or not |
| LoadFailures.EmptyDirectorySuffices | mariadb/client/mysqlbinlog.cc:316-328 | So in an empty directory no log with at most a thousand Begin events for each file stops |
| LoadFailures.ProcessFailsIff | mariadb/client/mysqlbinlog.cc:421-559 | One event fails iff it begins a file of which all names are taken |
| LoadFailures.FreshNameTaken | mariadb/client/mysqlbinlog.cc:316-328 | The name created is the first version not taken, and there is none iff all are |
| LoadFailures.FileNameTells | mariadb/client/mysqlbinlog.cc:319-322 | A file name tells its id and version, so files of different ids never take each other's names |
| LoadDemux.ExecuteGrabs | mariadb/client/mysqlbinlog.cc:1149-1173 | An Execute event hands out a file iff the log has that id open |
| LoadDemux.UploadedUnique | mariadb/client/mysqlbinlog.cc:421-559 | The data a log prescribes for an id is unique |
| LoadDemux.LoadProcessor.CreateUniqueFile | mariadb/client/mysqlbinlog.cc:316-328 | Creates the first of 1000 versions of the name that is not taken, or fails and creates nothing |
| LoadDemux.LoadProcessor.ProcessBegin | mariadb/client/mysqlbinlog.cc:421-496 | Registers a new file with the block under the id, replacing an earlier registration, or stops with an error |
| LoadDemux.LoadProcessor.ProcessAppend | mariadb/client/mysqlbinlog.cc:521-559 | Appends the block to the registered file and goes on; an unregistered id is skipped; the only error is a registered file that is not there, which `ProcessFailsIff` rules out |
| LoadDemux.LoadProcessor.GrabName | mariadb/client/mysqlbinlog.cc:382-393 | Hands out the registered name and forgets it |
| LoadDemux.SetName | mariadb/mysys/array.c:238-251 | The growing table changes at one index only, and new entries in between are empty |
| Flashback.OutputReversesLog | mariadb/client/mysqlbinlog.cc:725-823 | Without a filter the output holds every row change of the log in exactly reverse order, over all statements, and each printed statement has one end flag, on its last event |
| FlashbackOutput.OutputIs | mariadb/client/mysqlbinlog.cc:716-823 | For any log, filtered or not, the chunks are read off the log event by event: a text for each other event, and for each end of a statement that is printed its maps and rows; what goes out at once is the table maps before statements whose last row is hidden |
| FlashbackOutput.StatementIsPrinted | mariadb/client/mysqlbinlog.cc:753-823 | The chunk of a statement is all table maps since the statement before, in log order, and then all its changes from the last to the first |
| FlashbackOutput.OutputTexts | mariadb/client/mysqlbinlog.cc:3424-3440 | The texts of other events come out in exactly the reverse of their order in the log |
| Flashback.FlashbackUndoesLog | mariadb/client/mysqlbinlog.cc:3424-3440 | If each printed event inverts its original at the state the original was applied to, replaying the output, statement by statement as the end flags say, restores the state before the log |
| Flashback.RowInvertsIff | mariadb/client/mysqlbinlog.cc:725-742 | On a table of rows the opposite of an insert, delete or update takes it back exactly where the delete or update finds its row |
| Flashback.FlashbackRestoresRows | mariadb/client/mysqlbinlog.cc:3424-3440 | So a log of inserts, deletes and updates that found their rows is taken back row for row |
| Flashback.ReceiveOutput | mariadb/client/mysqlbinlog.cc:728-735 | Replayed on a server that applies a statement at its end flag, the output applies all its changes in order and leaves nothing open |
| Flashback.FilteredStatementOutput | mariadb/client/mysqlbinlog.cc:753-823 | With a filter a statement is printed whole, hidden rows included, or not at all, as its last row says |
| Flashback.FilterIsRightIff | mariadb/client/mysqlbinlog.cc:795-823 | So the filtered output is the kept rows backwards iff the filter keeps all rows of the statement or none |
| Flashback.HiddenLastRowLosesStatement | mariadb/client/mysqlbinlog.cc:795-797 | A statement with a hidden last row prints nothing although a kept row changed |
| Flashback.FlashbackPrinter.ProcessRows | mariadb/client/mysqlbinlog.cc:716-823 | A row event is collected with its end flag moved to the statement's first row, and an end prints the statement as one chunk |
| Flashback.FlashbackPrinter.PrintStatement | mariadb/client/mysqlbinlog.cc:803-814 | The loop from the last row to the first leaves table maps and all rows, backwards, in the output of the last printed event |
| Flashback.FlashbackPrinter.PrintRow | mariadb/sql/log_event_client.cc:2970-3008 | The cache goes to the event's output exactly at an end flag |
| Flashback.FlashbackPrinter.ProcessTableMap | mariadb/client/mysqlbinlog.cc:1327-1330 | A table map goes to the end of the cache, a new statement starts without rows, and no output is touched |
| Flashback.FlashbackPrinter.ProcessOther | mariadb/client/mysqlbinlog.cc:1409-1429 | The text of any other event is a chunk of its own, and rows being collected stay |
| Flashback.FlashbackPrinter.PrintReversed | mariadb/client/mysqlbinlog.cc:3428-3436 | The chunks come out from the last to the first |
| OutputWindow.RunFollows | mariadb/client/mysqlbinlog.cc:948-1053 | Over the whole stream: the printed events are exactly the eligible ones before the first stop, in order, and nothing follows a stop |
| OutputWindow.PrintedIsOneBlock | mariadb/client/mysqlbinlog.cc:966-1053 | Over the whole stream an event that is no format event is printed iff it lies between the first event that meets offset and start time and the first stop (a finished GTID filter, a time at or behind the stop time, a place at or behind the stop position), the last GTID decision of its own log so far includes its group or there is none, and its server is not excluded, however timestamps go |
| OutputWindow.FormatsArePrinted | mariadb/client/mysqlbinlog.cc:1016-1053 | A format event is printed iff it comes before the first stop and its group is shown, wherever the window starts |
| OutputWindow.FlagIsShown | mariadb/client/mysqlbinlog.cc:958-970 | The group flag is up iff the last decision of the log so far is to include, or there was none |
| OutputWindow.StepFollows | mariadb/client/mysqlbinlog.cc:1009-1053 | The latched variables of the program follow the declarative window event by event |
| OutputWindow.EligibleUpTo | mariadb/client/mysqlbinlog.cc:1016-1053 | All eligible events up to a point, each once, ascending |
| OutputWindow.BinlogReader.ProcessEvent | mariadb/client/mysqlbinlog.cc:948-1053 | One event updates counter, offset, start time and output as the window function says; an included group raises the group flag, an excluded one lowers it, and nothing else moves it; under a lowered flag, and at a stop, nothing is printed |
| OutputWindow.BinlogReader.DumpLog | mariadb/client/mysqlbinlog.cc:3194-3234 | One log is read to its end or to a stop, with its own group flag |
| OutputWindow.BinlogReader.DumpLogs | mariadb/client/mysqlbinlog.cc:3397-3407 | Several logs are one stream: the output is that of the concatenation, the stop position counts in the last log only, and a stop ends everything |
| OutputWindow.StreamAt | mariadb/client/mysqlbinlog.cc:3397-3407 | That stream holds every event of every log, in order, with the first of each log marked, and the stop position in the last log only |
| Quoting.QuotedForLikeIsExact | mariadb/client/mysqldump.cc:2259-2278 | Through the literal reader and then the LIKE matcher the quoted name matches a string iff it is the name, and the literal ends at its own quote |
| Quoting.PatternMatches | mariadb/strings/ctype-simple.c:996-1086 | The decoded pattern matches exactly one string |
| Quoting.LikeBodyReads | mariadb/sql/sql_lex.cc:1569-1622 | The literal reader turns the quoted name into that pattern |
| Quoting.QuotedForEqualReadsBack | mariadb/client/mysqldump.cc:2280-2298 | A name quoted for a comparison reads back as itself |
| Quoting.FieldEscapeIsOneLiteral | mariadb/client/mysqldump.cc:4150-4178 | For every input the quoted text is one literal, closed where it should be, whose value is what the user wrote |
| Quoting.QuoteForLike | mariadb/client/mysqldump.cc:2259-2278 | The pointer loop writes exactly the quoted name and a terminator, within four bytes a character |
| Quoting.QuoteForEqual | mariadb/client/mysqldump.cc:2280-2298 | The pointer loop writes exactly the quoted name and a terminator, within two bytes a character |
| Quoting.FieldEscapeDump | mariadb/client/mysqldump.cc:4150-4178 | The dump tool's loop writes the escaped text between quotes |
| Quoting.FieldEscapeImport | mariadb/client/mysqlimport.cc:1053-1074 | The import tool's loop writes the same bytes as the dump tool's, within two bytes a character and one |
| Identifiers.BacktickRoundTrip | mariadb/client/mysqldump.cc:2217-2234 | Every non-empty name in backticks, as the argument of USE, comes back as itself |
| Identifiers.AnsiRoundTripIff | mariadb/client/mysqldump.cc:2220-2233 | In double quotes it comes back as itself iff it has no backslash |
| Identifiers.GetArg | mariadb/client/mysql.cc:4994-5050 | Reading an argument in place, shifting the line left at each escape, gives exactly the argument, or nothing iff there is none |
| Identifiers.CheckArg | mariadb/client/mysql.cc:5027-5049 | Check mode, which leaves the line alone, finds an argument on any line exactly when get mode does |
| Identifiers.ScanInPlace | mariadb/client/mysql.cc:5027-5048 | The shifting scan yields what the plain scan of the original text yields, and ends the string there |
| Identifiers.FindStart | mariadb/client/mysql.cc:5009-5026 | Where the argument starts, behind the command and an opening quote, for short and long commands |
| CommandLines.ArgumentIs | mariadb/client/mysql.cc:5000-5048 | For any line of white space, a short or long command, white space and an argument, in quotes or not, with its escapes, the command reads exactly the argument as written, whatever follows |
| CommandLines.NoArgument | mariadb/client/mysql.cc:5027-5048 | It reads nothing where the quote is not closed or the argument is empty |
| CommandLines.BareCommand | mariadb/client/mysql.cc:5009-5026 | Nor where the line ends with the command |
| Identifiers.QuoteName | mariadb/client/mysqldump.cc:2224-2233 | The pointer loop writes exactly the quoted name and a terminator |
| InsertBatching.DumpRows | mariadb/client/mysqldump.cc:4714-4748 | The text written is that of a batching that has all rows in order and is greedy: no empty statement, every statement of several rows, terminator included, more than four bytes below the buffer length, and none that would have stayed so with the next row |
| InsertBatching.DumpIsGreedy | mariadb/client/mysqldump.cc:4510-4748 | The variables of the loop always describe such a batching, for any rows, pattern and limit, and the length kept is the bytes of the last statement and four more |
| InsertBatching.RowJoinsIff | mariadb/client/mysqldump.cc:4719-4734 | A row joins the last statement if and only if that stays more than four bytes below the buffer length, and otherwise opens the next |
| InsertBatching.FittingRowIsRefused | mariadb/client/mysqldump.cc:4719-4734 | Two rows that make seven bytes, below a buffer length of ten, are written as two statements |
| InsertBatching.OneDump | mariadb/client/mysqldump.cc:4714-4748 | There is exactly one text with these properties |
| InsertBatching.GreedyIsUnique | mariadb/client/mysqldump.cc:4719-4734 | Rows and limit determine such a batching, so nothing else could have been written |
| TriggerExtraction.ParseSqlScript | mariadb/client/mysqlimport.cc:593-604 | The erase loop terminates and computes the extraction function |
| TriggerExtraction.DumpRoundTrip | mariadb/client/mysqldump.cc:3977-3981 | For any script of plain text and framed triggers without DELIMITER lines of its own, closing marks in a trigger, or an unterminated statement before one, exactly the triggers come back, in order, and the joined text |
| TriggerExtraction.ParseInvertsDump | mariadb/client/mysqlimport.cc:593-604 | The same for any text and bodies that keep their marks |
| TriggerRoundTrip.RoundTripIff | mariadb/client/mysqlimport.cc:593-604 | For any script: exactly the triggers, in order, and the joined text come back iff the marks are kept, that is neither the joined text before a frame nor a body forms a mark of its own, and the text that remains holds no frame |
| TriggerRoundTrip.AllAreFound | mariadb/client/mysqlimport.cc:593-604 | At least as many triggers come out as were put in, whatever the texts hold |
| TriggerRoundTrip.WrappedHolds | mariadb/client/mysqldump.cc:3977-3981 | A trigger that comes back is its statement between the two marks of a versioned comment |
| TriggerRoundTrip.WrappedTells | mariadb/client/mysqldump.cc:3977-3981 | So it tells the statement |
| TriggerExtraction.FoundIffKept | mariadb/client/mysqlimport.cc:595-600 | The parser finds every mark where it was put, and then stops, iff the marks are kept |
| TriggerExtraction.SuffixFound | mariadb/client/mysqlimport.cc:598-600 | The closing mark is found where it was put iff the body holds none and does not complete the one the opening frame has begun |
| TriggerExtraction.PrefixFound | mariadb/client/mysqlimport.cc:595-597 | The opening mark is found where it was put iff the text before it, with a newline behind, holds none |
| TriggerExtraction.JoinedTextCanFormAMark | mariadb/client/mysqlimport.cc:601-603 | Without the semicolons the round trip fails: texts that hold no mark join to one, which swallows a piece of the script |
| RepairQueue.PrintResult | mariadb/client/mysqlcheck.c:1036-1118 | The loop with its remembered name, flags and list pointer computes the fold below |
| RepairQueue.ResultQueues | mariadb/client/mysqlcheck.c:1028-1118 | For any result grouped by distinct tables the queues are the table-by-table account: a table is queued once iff its first message is no note and its status is not OK, on the list that message asks for |
| RepairQueue.QueuedOnce | mariadb/client/mysqlcheck.c:1028-1118 | From empty lists a table's name stands exactly once on the three lists together if it needs repair, and else never |
| RepairLists.ResultLists | mariadb/client/mysqlcheck.c:1028-1118 | Each of the three lists grows by exactly the names of its tables, in the order of the result, if tables are to be repaired and are not being repaired, and by nothing otherwise |
| RepairLists.ContainsIff | mariadb/client/mysqlcheck.c:1084-1108 | The search for an advice in a message finds it iff it stands somewhere in the message |
| RepairQueue.QuotedNameTells | mariadb/client/mysqlcheck.c:1028-1034 | The quoted name tells the table: different tables are queued under different names |
| RepairLists.QuotedNameReads | mariadb/client/mysqlcheck.c:1028-1034 | The quoted name reads back as the database, a dot, and the table |
| RepairQueue.RunGroup | mariadb/client/mysqlcheck.c:1054-1108 | One table's rows do that and leave nothing pending, whatever name is remembered |
| RepairQueue.SilentChangesNothing | mariadb/client/mysqlcheck.c:1072-1073 | Silent mode gives the same queues, although it keeps an old, possibly cut-off, name |

## Left out

- CommentExact.CommentsStayOutIff: is about whole lines and runs that the client does not quit; for lines cut short only one half is proved, since a text left with a slash and a star can still become an executable comment on the next line. A text may end in two dashes, with nothing behind them.
- NeatLines.NeatLinesAreSmooth: is a sufficient condition, and only for comments in slashes and stars.
- StatementText.QuoteStateIsRescan: asks that no command of the run opens a quote, as an edit command can; that is sufficient, not necessary.
- StatementMeaning.LineMeaning: is about lines without backslashes outside strings, commands and delimiters, and with all their strings and comments ended; `LineParts.LineIsParts` has the others.
- LineParts.LineIsParts: a line on which the client quits is left out; `AddLineInPlace` has it.
- LineReader.Reader.AddLineInPlace: does not model binary mode, multi-byte character sets, preserved comments and the history.
- CompletionHash.HashTable.Update: does not model failing allocations and the wrap-around of 32-bit counts; the hash function itself, the existence test and the clearing of the table are not modelled.
- CompletionHash.HashTable.Find: the array of slots is a sequence that is reassigned; buckets are objects updated in place.
- CompletionGenerator.Generator.All: asks that the table was not emptied under a cursor that has not ended; the program would then go on with what an earlier call left behind.
- ConnectionPool.Pool.WaitForCompletions: does not model interrupted and failing polls, handlers that call the pool again, closing, and the Windows half.
- LoadDemux.RunInv: does not model failing writes and the deletion of files at the end of the program.
- Flashback.FlashbackUndoesLog: asks for table maps between statements only; row printing, the bytes of the inverted row events, the review option, annotate events, table maps that a filter hides and the separate place of the stop event are not modelled.
- OutputWindow.RunFollows: does not model the database filter, GTID state validation, errors and logs read from a server.
- Quoting.QuotedForLikeIsExact: compares characters one by one; collations that make letters equal are not modelled.
- Identifiers.GetArg: asks that a backslash that starts a short command has its letter behind it, because the program steps over both; ShortCommandsCanReadArguments proves that the lexer hands over no other, and a command found by its name starts with no backslash. The mode that reads a second argument is not modelled.
- Identifiers.QuoteName: does not model the options under which a name without special characters stays unquoted.
- InsertBatching.DumpRows: takes the formatted rows as given; field formatting, XML, single-row inserts and integer widths are not modelled.
- TriggerExtraction.DumpRoundTrip: takes the trigger statement as given; the covering of its definer clause and the time zone scan are not modelled.
- RepairQueue.PrintResult: asks that names in the result are longer than the database name, as `db.table` names are; printing and the cutting of over-long names are not modelled.
- The text that batch mode sends at the end of its input is not modelled.
- The delimiter that the dump tool makes up for stored programs, the prefixing of comment lines, the import tool's table definitions and the conversion tool would add little.
- Option parsing, connecting, prompts and the other tools have no content that a proof would add to.
