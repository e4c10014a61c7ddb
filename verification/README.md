# Swanlake in Dafny

Swanlake serves DuckDB over Arrow Flight SQL; a client library keeps connection pools to it.
This project models the parts of it that decide something on their own: the SQL lexers and the
ATTACH normaliser, statement admission, request cancellation and result streaming, the client
pools, the session registry with its bind gate, filter pushdown, type names, parameter binding,
the error scrubber, and the state of a session (schema cache, lockdown, transactions). DuckDB,
Arrow, the network and the authorization service answer as they like.

## How the model is built

* Scanners. `Lexemes`, `Tokens` and their users define each scanner as a recursive function of
  the remaining text; `Scanners`, `AttachScanners`, `AdmissionScanners`, `Secrets` and `Scrubber`
  hold the index loops of the source, each proved equal to its function. The laws are about the
  functions; those of admission are in `AdmissionLaws` and `Keywords`, those of the ATTACH
  normaliser in `Attach`, `AttachComments`, `ReadOnlyFlags`, `Reattach` and `DataPaths`, with the lexing of printed tokens in `CodeTexts` and concrete
  configurations in `Commented`, `CommentedFlags` and `RootedPaths`. Text is ASCII where the
  source reads bytes as characters (`Statements`, `Attach`, `Admission`); the scrubber's text may
  hold any character.
* Protocols. `Cancellation`, `Streaming`, `AsyncPool`, `SyncPool`, `Registry`, `Lockdown` and
  `Transactions` are state machines (`Grants` adds what the answers of the authorization service
  mean for the registry): `Apply` takes one step, cut wherever the source releases a lock or waits, `Exec` takes a run of them, and the theorems hold of every run. The mutex-guarded
  objects are classes whose methods are tied to the same functions the machine uses.
* Translations. `Filters` prints, `SqlReader` is an independent reader with SQL precedence, and
  `FilterMeaning`, `FilterWeakening` and `FilterConstants` compare values; `TypeText` and
  `TypeRoundTrip` do the same for type names, `Batches`, `MultiRowInsert`, `ParameterSchema` and
  `Placeholders` for parameters.

The lemmas carry `{:induction false}`: every induction is written out.

## Where the code does not do what one might expect

* The documentation of `normalize_attach` says surrounding comments are tolerated. A comment is
  words like any others to the parser: at the start, against the keyword, or behind the path it
  makes the statement fail, and inside or behind an option block it becomes part of the options
  (`AttachComments.CommentAcceptedIff`, `TrailingComment`, `LeadingCommentRefused`).
* A comment in the options can make the normalised text two statements
  (`Commented.CommentBreaksNormalizing`); the exact condition is `Reattach.NormalizeAgainIff`.
* The read-only rewrite drops an entry that names READ_ONLY whole, and with it a data root named
  inside (`RootedPaths.RootIsLostIn`, `DataPaths.NormalizeKeepsDataPath`).
* The flag it adds is the last entry for the tokenizer of the code; for a reader that skips
  comments a comment in the block hides it (`CommentedFlags.CommentHidesFlag`). It is in force for
  such a reader when no token of the path and of the kept entries has a comment, which is exactly
  when the statement has none (`ReadOnlyFlags.FlagInForceIff`).
* A statement without a leading keyword is not scanned at all, so one in parentheses is admitted
  whatever it calls (`AdmissionLaws.UncleanIsAdmittedIff`, `ParenthesisedIsAdmitted`).
* In the async pool a dead blocking task gives its permit back before it lowers the count. In
  between, a client that holds a permit can be told that the pool is exhausted
  (`AsyncPool.ExhaustedIsReachable`); with one step it could not (`AsyncPool.NeverExhausted`).
* Filter nodes that cannot be translated are dropped wherever they stand. A conjunct dropped at a
  positive place or a disjunct at a negative one loses no row (`FilterWeakening.DroppingIsSafe`);
  a disjunct at a positive place or a conjunct at a negative one loses exactly the rows that
  `FilterWeakening.RowIsLostIff` says. Items of IN and NOT IN are dropped too, with the same two
  sides (`ListRowIsLostIff`), and so are arguments of functions, which leaves a call with fewer
  arguments (`CallRowIsLostIff`, `DroppedArgumentLosesRows`). Text constants of types off the
  list, such as dates, print as quoted column names (`FilterConstants.TypedTextReadsAsColumnIff`),
  and a column name with a double quote does not read back (`FilterConstants.ColumnReadsBackIff`).
* A parameter of an INSERT lands in the column announced for it only when the statement spells
  the column as the table does (`ParameterSchema.ParameterLandsIff`). Numbered placeholders out
  of order are announced the wrong way round (`Placeholders.NumberedOutOfOrder`), and a number
  used twice hides a placeholder that was left out (`Placeholders.NoneSkippedIff`).
* An end of an aborted transaction answers a no-op exactly while a recovery has its id in hand,
  between its two critical sections (`Transactions.AbsentEndIff`, `AbortedEndIsNoOp`).

## Model

| member | source | states |
|---|---|---|
| Lexemes.RenderLex | swanlake-core/src/duckvis/attach.rs:15-202 | No scanner loses or invents a character: the lexemes of any text spell that text |
| Statements.LexStrip | swanlake-core/src/duckvis/attach.rs:150-202 | Reading stripped text finds the stripped lexemes: taking comments out never opens a quote or a comment that was not there |
| Statements.SplitStrip | swanlake-core/src/duckvis/attach.rs:15-202 | Splitting and comment stripping commute, for every text |
| Statements.StripIdempotent | swanlake-core/src/duckvis/attach.rs:150-202 | Stripping comments twice is stripping them once |
| Statements.KeywordStrip | swanlake-core/src/duckvis/attach.rs:96-202 | The leading keyword does not change when comments are stripped |
| Statements.JoinSplit | swanlake-core/src/duckvis/attach.rs:15-91 | The pieces joined with `;`, and one final `;` where the text ends in one, are the text |
| Statements.PieceSplitsToItself | swanlake-core/src/duckvis/attach.rs:15-91 | A non-empty piece is one statement: splitting it gives it back alone |
| Statements.PiecesStandalone | swanlake-core/src/duckvis/attach.rs:15-91 | Each piece, read on its own, has the same lexemes it had inside the text |
| Scanners.SplitTopLevelStatements | swanlake-core/src/duckvis/attach.rs:15-91 | The byte loop computes the reference splitting |
| Scanners.LeadingKeyword | swanlake-core/src/duckvis/attach.rs:96-145 | The byte loop computes the reference keyword, skipping blanks and both kinds of comment |
| Scanners.StripComments | swanlake-core/src/duckvis/attach.rs:150-202 | The byte loop computes the reference stripping |
| Scanners.TakeQuoted | swanlake-core/src/duckvis/attach.rs:25-45 | Inside quotes the index lands just behind the closing quote, doubled quotes skipped, and the characters passed are appended |
| Scanners.TakeBlockComment | swanlake-core/src/duckvis/attach.rs:60-75 | The index lands behind the closing `*/`, or at the end of the text |
| Scanners.TakeLineComment | swanlake-core/src/duckvis/attach.rs:46-59 | The index lands behind the newline that ends the comment, or at the end of the text |
| Tokens.TokenizeRebuild | swanlake-core/src/duckvis/attach.rs:681-757 | Tokenizing the option text printed from well-formed tokens gives back those tokens |
| Tokens.TokenizeValid | swanlake-core/src/duckvis/attach.rs:705-757 | Every token is one token on its own, and only the last can be unterminated |
| Tokens.UnquoteQuote | swanlake-core/src/duckvis/attach.rs:499-510 | Unquoting undoes quoting, whatever the text holds |
| Tokens.QuoteClosedToken | swanlake-core/src/duckvis/attach.rs:760-763 | A quoted text is one closed token: nothing in it ends its quotes |
| AttachScanners.TokenizeText | swanlake-core/src/duckvis/attach.rs:705-757 | The tokenizing loop computes the reference tokens |
| AttachScanners.RebuildOptions | swanlake-core/src/duckvis/attach.rs:681-697 | The printing loop computes the reference option text |
| Options.EntriesJoin | swanlake-core/src/duckvis/attach.rs:561-595 | Cutting a printed option block at its commas gives back its entries |
| Options.EnforceEntries | swanlake-core/src/duckvis/attach.rs:561-595 | Forcing read-only keeps every other entry in order and ends with one bare READ_ONLY |
| Options.EnforceSingleFlag | swanlake-core/src/duckvis/attach.rs:561-595 | For the tokenizer of the code, which knows no comments, exactly the last entry of the result names READ_ONLY, and it has no value |
| Options.EnforceIdempotent | swanlake-core/src/duckvis/attach.rs:561-595 | Forcing read-only twice is forcing it once |
| Options.EnforceTokens | swanlake-core/src/duckvis/attach.rs:561-595 | The rewritten block tokenizes to parentheses around the kept entries and the flag |
| AttachScanners.CollectEntries | swanlake-core/src/duckvis/attach.rs:573-580 | The loop over the block tokens collects the reference entries |
| AttachScanners.RetainEntries | swanlake-core/src/duckvis/attach.rs:581-584 | Exactly the entries that do not name READ_ONLY are kept, in order |
| AttachScanners.PrintBlock | swanlake-core/src/duckvis/attach.rs:586-594 | The loop prints the reference block tokens |
| AttachScanners.EnforceReadOnlyOptions | swanlake-core/src/duckvis/attach.rs:561-595 | The entry-vector code computes the reference rewriting |
| Attach.NormalizeReadsBack | swanlake-core/src/duckvis/attach.rs:512-697 | The normalised statement reads back to the path and options it was printed from exactly when the path is a terminated token other than DATABASE |
| Attach.AliasUnquotes | swanlake-core/src/duckvis/attach.rs:523-558 | The alias token of the printed statement unquotes to the catalog name |
| Attach.ParsePrintedTokens | swanlake-core/src/duckvis/attach.rs:622-679 | The parser undoes the printer on tokens: path, name and options come back |
| Attach.PhrasesAreSkipped | swanlake-core/src/duckvis/attach.rs:622-645 | OR REPLACE, DATABASE and IF NOT EXISTS before the path change nothing |
| Attach.AliasIsSkipped | swanlake-core/src/duckvis/attach.rs:646-679 | An alias changes nothing |
| AttachComments.AcceptedIff | swanlake-core/src/duckvis/attach.rs:523-558 | A configuration is normalised exactly when it is one statement whose tokens parse: the leading-keyword check refuses nothing more |
| AttachComments.CommentAcceptedIff | swanlake-core/src/duckvis/attach.rs:512-679 | A statement with a comment that does not touch the word before it is accepted exactly when the tokens before the comment end inside or behind an option block, or stop where the path or the alias is due and nothing but the rest of a statement follows the comment's first word |
| AttachComments.TrailingComment | swanlake-core/src/duckvis/attach.rs:512-679 | Behind a path and its alias a comment is refused; behind an option block it is accepted, and its words are printed among the options, under read-only as entries of the rewritten block |
| ReadOnlyFlags.RebuildComments | swanlake-core/src/duckvis/attach.rs:681-697 | Printed tokens have a comment exactly when one of them has: no two open one together |
| ReadOnlyFlags.OpensInsideIff | swanlake-core/src/duckvis/attach.rs:681-757 | A bare word has a comment exactly when one opens at some place inside it |
| ReadOnlyFlags.RewriteUnchangedIff | swanlake-core/src/duckvis/attach.rs:561-595 | Stripping comments leaves the rewritten option block as it is exactly when no token of a kept entry has a comment |
| ReadOnlyFlags.FlagInForceIff | swanlake-core/src/duckvis/attach.rs:519-558 | Stripping comments leaves a read-only normalised statement as it is exactly when neither the path nor a token of a kept entry has a comment, and then its last tokens are READ_ONLY and the parenthesis |
| ReadOnlyFlags.CommentFreeFlag | swanlake-core/src/duckvis/attach.rs:519-558 | A comment-free path and option block are enough: for a reader that skips comments the statement ends with the flag |
| ReadOnlyFlags.FlagIsHidden | swanlake-core/src/duckvis/attach.rs:561-595 | When a token of the rewritten block opens a line comment and no newline follows, such a reader sees the tokens before it and no flag |
| CommentedFlags.CommentHidesFlag | swanlake-core/src/duckvis/attach.rs:519-558 | A configuration with a comment behind its options whose read-only normalised statement is, without comments, an ATTACH with the options `(A)` |
| AttachComments.GluedCommentRefused | swanlake-core/src/duckvis/attach.rs:523-558 | A comment that touches the ATTACH keyword makes the statement fail |
| AttachComments.LeadingCommentRefused | swanlake-core/src/duckvis/attach.rs:512-558 | A statement that starts with a comment is refused, although the documentation says surrounding comments are tolerated |
| Reattach.NormalizeAgain | swanlake-core/src/duckvis/attach.rs:512-763 | With a terminated path other than DATABASE, the result is one statement that normalises to itself exactly when its own text has no top-level semicolon |
| Reattach.NormalizeAgainIff | swanlake-core/src/duckvis/attach.rs:512-763 | When the path has no comment either, that is so exactly when the option text to be printed, which is the rewritten one under read-only, has no top-level semicolon |
| Reattach.PrintOneStatement | swanlake-core/src/duckvis/attach.rs:550-558 | A printed statement is one statement exactly when its option text is: neither the path nor the quoted name can split it |
| Reattach.NormalizeIdempotent | swanlake-core/src/duckvis/attach.rs:512-763 | Comment-free configuration always meets that condition, so normalising it twice is normalising it once |
| Reattach.NormalizedIsRefused | swanlake-core/src/session/mod.rs:303-342 | User SQL that is a normalised ATTACH is refused for every session, whatever the configuration it came from |
| Commented.CommentBreaksNormalizing | swanlake-core/src/duckvis/attach.rs:512-763 | A concrete configuration with a comment in its options that fails the condition: its normalised text is two statements, and normalising again fails |
| AttachScanners.NormalizeAttach | swanlake-core/src/duckvis/attach.rs:523-558 | The method computes the reference normalisation, with its one error |
| AttachScanners.AttachDataPath | swanlake-core/src/duckvis/attach.rs:207-218 | The loop finds the reference data path: the unquoted token after the first DATA_PATH |
| DataPaths.NormalizeKeepsDataPath | swanlake-core/src/duckvis/attach.rs:207-218 | For both access modes: the normalised statement names the data root of the original exactly when, under read-only, the entry that names it survives the rewrite; with the path DATABASE the result names none |
| DataPaths.UndisturbedIsKept | swanlake-core/src/duckvis/attach.rs:561-595 | It survives when no entry that names READ_ONLY holds a DATA_PATH token and no entry ends with one |
| DataPaths.RootIsLost | swanlake-core/src/duckvis/attach.rs:561-595 | The entry `READ_ONLY DATA_PATH d` names the root d and is dropped whole |
| RootedPaths.RootIsLostIn | swanlake-core/src/duckvis/attach.rs:512-595 | The configuration `ATTACH 'x' (READ_ONLY DATA_PATH 'd')` names the root d, and its read-only normalised statement does not |
| DataPaths.JoinedPath | swanlake-core/src/duckvis/attach.rs:207-218 | The root of an option block is the one its entries name, taken one by one |
| AttachScanners.NonBlankStatements | swanlake-core/src/duckvis/attach.rs:528-531 | The statements left after dropping the blank ones, in order |
| Admission.AdmissionIgnoresComments | swanlake-core/src/session/mod.rs:303-342 | The verdict on a text is the verdict on its comment-stripped text |
| Admission.AdmissionIsPerStatement | swanlake-core/src/session/mod.rs:303-342 | A text is admitted exactly when each of its statements is admitted alone |
| Admission.WriterAdmitsMore | swanlake-core/src/session/mod.rs:303-342 | A writer may run whatever a non-writer may |
| AdmissionLaws.AdmittedIsClean | swanlake-core/src/session/mod.rs:303-342 | A statement of an admitted text that has a leading keyword is no ATTACH, no persistent secret, and names no reserved secret; for a non-writer it is no EXPORT, no call of a ducklake function and no COPY to a file, names no metadata catalog, calls no refused function and creates no macro or function |
| AdmissionLaws.CopyIff | swanlake-core/src/duckvis/attach.rs:266-288 | A COPY writes a file exactly when no FROM outside parentheses comes before the first TO outside parentheses, depth being opening less closing parentheses |
| AdmissionLaws.PersistentIff | swanlake-core/src/duckvis/attach.rs:240-260 | A CREATE makes a persistent secret exactly when SECRET, and PERSISTENT or IN, stand before its option block and any AS |
| AdmissionLaws.DucklakeCallIff | swanlake-core/src/duckvis/attach.rs:220-238 | A CALL targets a ducklake function exactly when the name behind its last dot begins so, however it is quoted and qualified |
| AdmissionLaws.CleanIff | swanlake-core/src/duckvis/attach.rs:378-434 | No construct is refused exactly when no token mentions the reserved prefix and, for a non-writer, none is a metadata catalog or a refused call and no macro or function is created |
| AdmissionLaws.CallIsRefused | swanlake-core/src/session/mod.rs:303-342 | A non-writer that selects from a refused function is refused, in any case of the name and whatever follows |
| AdmissionLaws.ScanWord | swanlake-core/src/duckvis/attach.rs:437-496 | A bare word is one token up to the first character that is none of its own |
| AdmissionLaws.ScanQuoted | swanlake-core/src/duckvis/attach.rs:463-478 | A quoted text is one token with its quotes undone, a word in double quotes and a literal in single ones |
| Keywords.KeywordIs | swanlake-core/src/duckvis/attach.rs:96-145 | The leading keyword is the run of letters, digits and underscores at the start, in capitals, or none |
| Keywords.FirstStrippedIsKeyword | swanlake-core/src/duckvis/attach.rs:96-202 | A first token of letters alone is the leading keyword |
| Keywords.TokenOfWord | swanlake-core/src/duckvis/attach.rs:705-757 | A bare token runs up to a blank, a parenthesis, a comma or a quote |
| AdmissionLaws.UncleanIsAdmittedIff | swanlake-core/src/session/mod.rs:303-342 | A statement with a refused construct is admitted exactly when it has no leading keyword |
| AdmissionLaws.ParenthesisedIsAdmitted | swanlake-core/src/session/mod.rs:309-312 | No statement in parentheses is refused; its scanned words are those inside |
| AdmissionLaws.ParenthesisHidesNothing | swanlake-core/src/duckvis/attach.rs:378-434 | A reserved name or a refused call is one behind an opening parenthesis too |
| AdmissionScanners.ScanText | swanlake-core/src/duckvis/attach.rs:455-496 | The scanning loop computes the reference tokens of the refusals |
| AdmissionScanners.ReadQuoted | swanlake-core/src/duckvis/attach.rs:463-478 | The quote loop reads the reference content and stops behind the closing quote |
| AdmissionScanners.RefusedConstruct | swanlake-core/src/duckvis/attach.rs:378-434 | The loop over tokens finds the first refusal, and the reserved names first |
| AdmissionScanners.CallTargets | swanlake-core/src/duckvis/attach.rs:223-238 | Whether a CALL targets a ducklake function, as the reference decides it |
| AdmissionScanners.CopyWrites | swanlake-core/src/duckvis/attach.rs:266-288 | Whether a COPY writes a file: the parenthesis-depth loop computes the reference |
| AdmissionScanners.DenyStatement | swanlake-core/src/session/mod.rs:303-342 | The refusal of one statement, in the order of the checks |
| AdmissionScanners.ValidateSql | swanlake-core/src/session/mod.rs:303-342 | The first refusal over all statements of the text, or none |
| Secrets.SecretStatementReads | swanlake-core/src/duckvis/attach.rs:304-334 | A secret statement is one statement whose tokens are CREATE OR REPLACE TEMPORARY SECRET, the name, TYPE postgres and, per field, a comma, the key and one literal: no value leaves its quotes |
| Secrets.SecretValueReads | swanlake-core/src/duckvis/attach.rs:304-334 | The literal of each field unquotes to exactly its value |
| Secrets.SecretAcceptedIff | swanlake-core/src/duckvis/attach.rs:304-334 | A statement is built exactly for postgres, a name of the reserved prefix and 32 lower-case hexadecimal digits, and keys that are identifiers other than TYPE |
| Secrets.BuildSecretStatement | swanlake-core/src/duckvis/attach.rs:304-334 | The loop builds the reference statement, or fails on the same malformed shapes |
| Cancellation.RequestCancellation.Activate | swanlake-core/src/engine/cancellation.rs:34-44 | A cancelled request cannot be activated and stays as it was; any other remembers the connection |
| Cancellation.RequestCancellation.Cancel | swanlake-core/src/engine/cancellation.rs:46-65 | Only the first cancel of an activated request asks for an interrupt task |
| Cancellation.ExecInv | swanlake-core/src/engine/connection.rs:339-371 | Over all interleavings: a request holds its connection from lock to unlock, its guard is armed only in between, it has at most one interrupt task, and cancellation is permanent |
| Cancellation.InterruptsHitTheirOwnRequest | swanlake-core/src/engine/cancellation.rs:34-97 | No interrupt reaches a successor: each one hits a connection that the cancelled request owns at that moment |
| Cancellation.OneInterruptTask | swanlake-core/src/engine/cancellation.rs:46-65 | At most one interrupt task per request is alive or about to be spawned |
| Cancellation.CancelledIsInterrupted | swanlake-core/src/engine/cancellation.rs:46-75 | A request cancelled while its guard is up has exactly one interrupt task, and each tick of it hits the request's own connection |
| Cancellation.UncancelledRuns | swanlake-core/src/engine/connection.rs:339-371 | A queued request that is not cancelled locks its free connection, raises its guard and starts its statement |
| Cancellation.FinishedIsUnlocked | swanlake-core/src/engine/connection.rs:339-371 | A request that is over without having been cancelled has unlocked its connection for good |
| Cancellation.AlwaysReleasable | swanlake-core/src/engine/cancellation.rs:81-90 | Whoever raised a guard can drop it and unlock, and the connection is then free |
| Cancellation.CancelledStaysStopped | swanlake-core/src/engine/cancellation.rs:46-90 | Once cancelled with the guard down, a request fires no interrupt and starts no statement in any continuation, and its task ends at its first tick |
| Cancellation.CancelledBeforeActivation | swanlake-core/src/engine/connection.rs:540-590 | A request cancelled while it queues, or before its guard is up, never starts another statement |
| Streaming.StreamAdapter.PollNext | swanlake-core/src/service/streaming.rs:292-388 | One poll changes the state and yields the frame, the end or the wait that the reference step gives |
| Streaming.SendBatches | swanlake-core/src/engine/connection.rs:247-287 | The batch loop sends the batches in order until the receiver goes, and returns the sums only when all were sent |
| Streaming.ExecInv | swanlake-core/src/engine/connection.rs:194-305 | In every run the log is a schema, batches and at most one closing message, the channel is first in first out, and the frames are those of the received messages |
| Streaming.ProducerGrammar | swanlake-core/src/engine/connection.rs:194-305 | At most one schema, before any batch; at most one closing message and nothing after it; Done carries the sums of the batches sent |
| Streaming.DoneIsUncancelled | swanlake-core/src/engine/connection.rs:286-305 | Done is only sent after a final check that found the request not cancelled |
| Streaming.NoSilentEnd | swanlake-core/src/service/streaming.rs:184-202 | A finished producer whose receiver is still there has sent Done or an error |
| Streaming.AnnouncedIsExecuted | swanlake-core/src/engine/connection.rs:228-245 | In every run in which a batch or Done was sent, the first message announces the schema of an executed step |
| Streaming.SmoothRunsSucceed | swanlake-core/src/engine/connection.rs:194-305 | A run in which nobody cancels or leaves, the start succeeds and the query executes, with the planned schema where there was one, never sends an error and ends in Done |
| Streaming.FetchedAreSent | swanlake-core/src/engine/connection.rs:247-287 | Unless the receiver went, the batches sent, and the one in hand, are those the engine gave, in order, and Done says it gave no more |
| Streaming.EveryAnswerArrives | swanlake-core/src/service/streaming.rs:292-388 | For every schema, planned or not, and all batches there is a run in which the client gets exactly these and the end |
| Streaming.SendsWithRoom | swanlake-core/src/engine/connection.rs:194-305 | A message is accepted exactly while the channel holds fewer than four |
| Streaming.CancelledEarlySendsNothing | swanlake-core/src/engine/connection.rs:194-245 | A request cancelled before it plans sends nothing but an error |
| Streaming.CleanEndIsComplete | swanlake-core/src/service/streaming.rs:292-388 | A client that saw the end and no error got the schema that the query was executed with, then every batch the engine gave until it gave no more, in order and once, and as many rows as Done announced |
| Streaming.HeartbeatsAddNoRows | swanlake-core/src/service/streaming.rs:357-388 | Heartbeat frames add no rows |
| IdleConnections.FreshExactly | swanlake-client/src/pool_shared.rs:14-29 | Eviction keeps exactly the fresh entries, each as often as it was there |
| IdleConnections.FreshPlaces | swanlake-client/src/pool_shared.rs:14-29 | The survivors of an eviction keep their order |
| IdleConnections.SurvivorsAreRecent | swanlake-client/src/pool_shared.rs:14-29 | The survivors are exactly the connections used within the time to live, on the readings of the clock |
| IdleConnections.LastInFirstOut | swanlake-client/src/async_pool.rs:83-135 | The connection given back last is reused next, and the others stay |
| IdleConnections.NothingIdle | swanlake-client/src/async_pool.rs:83-100 | With nothing recent idle a connection may be created exactly below the limit |
| IdleConnections.PoolInner.EvictIdle | swanlake-client/src/pool_shared.rs:14-29 | The retain loop leaves the fresh entries and lowers the count by the number removed; a zero time to live removes none |
| IdleConnections.PoolInner.ReserveConnection | swanlake-client/src/async_pool.rs:83-100 | Under the lock: evict, then reuse the last idle connection, or take a count below the limit, or neither |
| IdleConnections.PoolInner.ReleaseConnection | swanlake-client/src/async_pool.rs:122-135 | A connection given back goes on top of the fresh idle ones and stays counted |
| AsyncPool.ExecInv | swanlake-client/src/async_pool.rs:67-225 | Every interleaving keeps the accounting, the ownership of connections and the attempt limits |
| AsyncPool.Accounting | swanlake-client/src/async_pool.rs:67-225 | The count is the idle, lent and opening connections and those whose dead task still owes its decrement, and stays within the limit; permits add up; no connection has two holders |
| AsyncPool.NeverExhausted | swanlake-client/src/async_pool.rs:170-199 | Were the bookkeeping of a dead task one step, no permit holder would be told the pool is exhausted |
| AsyncPool.ExhaustedNeedsLoss | swanlake-client/src/async_pool.rs:83-120 | A permit holder is told so exactly when nothing fresh is idle and the count is at its limit, and then a dead task owes its decrement |
| AsyncPool.ExhaustedIsReachable | swanlake-client/src/async_pool.rs:170-199 | A concrete run in which the code, whose bookkeeping is two steps, refuses a permit holder although no other connection is open |
| AsyncPool.AttemptsBounded | swanlake-client/src/async_pool.rs:336-406 | A retried query runs at most twice, any other query or update at most once |
| AsyncPool.FailedIsNeverIdle | swanlake-client/src/async_pool.rs:122-200 | A connection on which a query, an update or a health check failed is never idle again |
| AsyncPool.GoodIsGivenBack | swanlake-client/src/async_pool.rs:122-200 | A connection whose work succeeded at once is given back |
| AsyncPool.RetriedIff | swanlake-client/src/async_pool.rs:336-380 | After a failed first attempt of a retried query the connection is checked and dropped, and the query starts over exactly when the check fails |
| AsyncPool.FailureIsFinal | swanlake-client/src/async_pool.rs:336-406 | Any other failure drops the connection and is final |
| AsyncPool.DeadTaskRetriedIff | swanlake-client/src/async_pool.rs:170-200 | When the task died the count is lowered once, and a query starts over exactly when it was being checked or may run again |
| AsyncPool.UnservedIsOver | swanlake-client/src/async_pool.rs:83-121 | A client told that the pool is full and one whose connection could not be opened give their permit back, and the count is as before |
| AsyncPool.SessionsGoOn | swanlake-client/src/async_pool.rs:122-200 | A session keeps its connection through failures and gives it back |
| SyncPool.ExecInv | swanlake-client/src/pool.rs:142-278 | Every interleaving keeps the accounting, the ownership of connections and the attempt limits |
| SyncPool.Accounting | swanlake-client/src/pool.rs:142-235 | The count is the idle, lent and opening connections and stays within the limit; each connection opened and gone was subtracted once; none has two holders |
| SyncPool.AttemptsBounded | swanlake-client/src/pool.rs:425-489 | A retried query runs at most twice, any other query or update at most once |
| SyncPool.FailedNeedsHealth | swanlake-client/src/pool.rs:200-235 | A connection that failed is idle again only after its holder found it healthy on giving it back |
| SyncPool.RetriedIff | swanlake-client/src/pool.rs:425-466 | After a failed first attempt of a retried query the connection is checked; the query waits for another exactly when the check fails |
| SyncPool.ErrorReturns | swanlake-client/src/pool.rs:200-235 | A connection with an error is given back exactly when it is healthy |
| SyncPool.UnservedIsOver | swanlake-client/src/pool.rs:142-198 | A client whose connection could not be opened and one that waited too long hold nothing and take no step any more |
| SyncPool.FailedReacquire | swanlake-client/src/pool.rs:425-466 | A client that loses its connection to a failed health check, waits while others go on, and times out leaves the pool as if it had left at the health check: the count was lowered once |
| Registry.SessionRegistry.RemoveSession | swanlake-core/src/session/registry.rs:182-200 | Only the incarnation with the given nonce is removed, and the answer says whether it was |
| Registry.SessionRegistry.RegisterSession | swanlake-core/src/session/registry.rs:303-320 | After the second look the id has a registered session, the one returned: the earlier one if there is one |
| Registry.SessionRegistry.CleanupIdleSessions | swanlake-core/src/session/registry.rs:135-164 | Exactly the idle sessions go, and their number is returned |
| Registry.PermitConservation | swanlake-core/src/session/registry.rs:135-327 | Free permits, registered sessions, in-flight creators and entries being dropped add up to the limit in every run |
| Registry.ServedIsBound | swanlake-core/src/service/mod.rs:142-301 | A request that is served has a session of its own id and of the nonce it expected, bound to its own subject and to the project it named; a read-only instance serves non-writers only |
| Grants.SessionsAreGranted | swanlake-core/src/service/mod.rs:260-286 | In every run of a gated server each session was made for a request that the service had allowed the project before; it is a writer exactly when the service then allowed that, and never on a read-only server |
| Grants.DeniedIsRefused | swanlake-core/src/service/mod.rs:260-267 | A subject denied the project is refused in every continuation |
| Grants.ExistingServedIff | swanlake-core/src/service/mod.rs:240-257 | With a registered session a request is served exactly when the subject is the session's and the project and the nonce it names are too |
| Grants.AllowedIsBound | swanlake-core/src/service/mod.rs:260-286 | The first contact of a subject that is allowed comes to the auth the answers say |
| Grants.BoundIsServed | swanlake-core/src/session/registry.rs:217-327 | With a permit free and no session registered, a bound request gets a new registered session with its auth |
| Grants.LostSessionIsRefused | swanlake-core/src/service/mod.rs:229-238 | A client that names a lost session is refused before anything is asked |
| Grants.UngatedIsServed | swanlake-core/src/service/mod.rs:156-163 | Without a gate the registered session serves every request whose nonce fits |
| Grants.LoserIsServed | swanlake-core/src/session/registry.rs:303-327 | The creator that registers second gives its permit back and is served with the first one's session, if that has the same auth |
| Registry.BindingsAreFixed | swanlake-core/src/session/registry.rs:217-327 | A session keeps its id and its binding for ever |
| Registry.ClosedIsRetired | swanlake-core/src/session/registry.rs:135-200 | Closing a session or sweeping it away leaves its nonce neither registered nor about to be |
| Registry.OldNonceIsHarmless | swanlake-core/src/session/registry.rs:177-200 | A nonce once gone never returns, and closing with it never removes a later incarnation |
| Registry.RacersAgree | swanlake-core/src/session/registry.rs:217-327 | While the session registered for an id stays, every request for that id that had none yet gets that one, if any |
| Registry.GotStep | swanlake-core/src/session/registry.rs:217-327 | The moment a creator has a session in hand, that session is the registered one |
| FilterTokens.SqlReads | swanlake-core/src/service/handlers/action.rs:548-711 | The text of a faithful filter is there and tokenizes to the words one expects, whatever follows it |
| FilterMeaning.MeaningValue | swanlake-core/src/service/handlers/action.rs:548-711 | The condition a faithful filter stands for has the filter's value on every row of every database; the value of a pattern is decided on its name: `~~` and `like`, their negations, `~~~` and `ilike` |
| FilterMeaning.ConditionReadsBack | swanlake-core/src/service/handlers/action.rs:548-711 | Read with SQL precedence, the words of a faithful filter are one condition, the one it stands for |
| FilterMeaning.OperandReadsBack | swanlake-core/src/service/handlers/action.rs:548-711 | An operand reads as one operand whatever follows: columns, constants, calls, and conjunctions in their parentheses |
| FilterMeaning.ClauseKeepsMeaning | swanlake-core/src/service/handlers/action.rs:548-734 | For fully translatable filters the WHERE text reads as one condition whose three-valued value is that of all the filters together |
| FilterWeakening.PrunedWeakens | swanlake-core/src/service/handlers/action.rs:548-711 | Dropping conjuncts and items of NOT IN at positive places, and disjuncts and items of IN at negative ones, NOT turning the sign, prints a faithful filter that is true wherever the original is true, or false wherever it is false under an odd number of NOTs |
| FilterWeakening.DroppingIsSafe | swanlake-core/src/service/handlers/action.rs:714-734 | Then every row that passes all the filters passes the clause |
| FilterWeakening.RowIsLostIff | swanlake-core/src/service/handlers/action.rs:590-648 | A conjunction of any width under any frames loses a row exactly when, at a positive place under an OR, a dropped child is true and no printed one is, or at a negative place under an AND, a dropped child is false and no printed one is |
| FilterWeakening.NodeLoses | swanlake-core/src/service/handlers/action.rs:590-602 | The same at the node alone |
| FilterWeakening.ListRowIsLostIff | swanlake-core/src/service/handlers/action.rs:616-640 | A list under any frames loses a row exactly when it is an IN at a positive place or a NOT IN at a negative one, a dropped item equals the operand and no printed one does |
| FilterWeakening.CallRowIsLostIff | swanlake-core/src/service/handlers/action.rs:683-691 | A function with dropped arguments loses a row exactly when the call with all of them has the wanted value and the call with the printed ones has not |
| FilterWeakening.DroppedArgumentLosesRows | swanlake-core/src/service/handlers/action.rs:683-691 | Whatever argument is dropped, some engine then loses every row |
| FilterConstants.ConstantReadsBackIff | swanlake-core/src/service/handlers/action.rs:568-589 | Which constants read back as their JSON value: NULLs, text of type text, and other JSON outside quotes; nothing else |
| FilterConstants.TypedTextReadsAsColumnIff | swanlake-core/src/service/handlers/action.rs:568-589 | A text constant of a numeric type or one off the list, such as a date, reads as the column named by its escaped text exactly when it has no double quote |
| FilterConstants.SameText | swanlake-core/src/service/handlers/action.rs:548-711 | A filter and the one with every such constant replaced by a column print the same text |
| FilterConstants.DatesReadAsColumns | swanlake-core/src/service/handlers/action.rs:714-734 | So the clause has the value of the filter that compares with columns |
| FilterConstants.ColumnReadsBackIff | swanlake-core/src/service/handlers/action.rs:564-567 | A column reads back as itself exactly when its name has no double quote |
| FilterConstants.UnescapeEscaped | swanlake-core/src/service/handlers/action.rs:568-589 | Reading the escapes of a JSON text gives the text back |
| FilterConstants.PatternArguments | swanlake-core/src/service/handlers/action.rs:663-690 | A pattern prints its first two arguments and needs both |
| Scrubber.ScrubErrorText | swanlake-core/src/scrub.rs:12-65 | The index loop computes the reference redaction, and its search index grows at every turn |
| Scrubber.FindKey | swanlake-core/src/scrub.rs:19-21 | The first place at or after the search index where the key stands in any case |
| Scrubber.SkipBlanks | swanlake-core/src/scrub.rs:23-34 | The index behind the blanks, and whether an equals sign is there |
| Scrubber.SkipValue | swanlake-core/src/scrub.rs:37-57 | The index behind the value: the closing quote with doubled quotes skipped, or the end of the bare run |
| ScrubberMeaning.SecretsAreRedacted | swanlake-core/src/scrub.rs:12-65 | For any number of quoted values the result is the text around them with a mark for each: no value can show, and everything else stays in order |
| ScrubberMeaning.ValuesDoNotInterfere | swanlake-core/src/scrub.rs:12-65 | Texts that differ only in their secret values give the same result |
| ScrubberMeaning.BareValueIsRedacted | swanlake-core/src/scrub.rs:12-65 | A bare value up to a blank or a quote does not show either |
| ScrubberMeaning.ResultIsRedacted | swanlake-core/src/scrub.rs:12-65 | In every result, each key followed by blanks and an equals sign is followed at once by the mark |
| ScrubberMeaning.NothingToRedact | swanlake-core/src/scrub.rs:12-65 | Text without such an assignment is unchanged |
| TypeRoundTrip.ReadBack | swanlake-core/src/types.rs:23-130 | What printing a type and reading it back yields, for every type: which ones collapse, and which are errors |
| TypeRoundTrip.RoundTripIff | swanlake-core/src/service/handlers/action.rs:926-969 | A printed type reads back as itself exactly for the listed scalars, decimals with scale within precision, and nested nullable item lists of these |
| TypeRoundTrip.DecimalReads | swanlake-core/src/types.rs:74-85 | A printed decimal reads back with precision clamped to 76, scale to precision and negative scales to zero, in the width the precision asks for |
| TypeRoundTrip.ReadsArray | swanlake-core/src/types.rs:27-32 | A text with one more pair of brackets reads as the nullable item list of what the rest reads as |
| TypeRoundTrip.IntegerSynonyms | swanlake-core/src/types.rs:33-60 | The synonyms of an integer name read alike |
| TypeRoundTrip.DecimalDefaults | swanlake-core/src/types.rs:74-130 | A decimal without a precision is 18 with 3 places, one without a scale has none |
| TypeRoundTrip.WideIntegers | swanlake-core/src/types.rs:86-88 | The wide integers read as the widest 128-bit decimal |
| TypeRoundTrip.NestedTexts | swanlake-core/src/service/handlers/action.rs:926-969 | A struct lists each field's name and type, a map its key type and its value type |
| Numbers.ParseDigits | swanlake-core/src/types.rs:118-125 | A printed number below the machine limit parses back |
| Batches.HasPositionalFieldNames | swanlake-core/src/engine/batch.rs:12-43 | Positional names are those that count up by one from zero or one, an optional dollar sign aside |
| Batches.Reshape | swanlake-core/src/engine/batch.rs:52-115 | The nested loops compute the reference reshaping, or fail when the columns do not divide, there is not one row, or types differ |
| Batches.BuildLookup | swanlake-core/src/engine/batch.rs:117-173 | The lookup is the reference one: by position, by name, later names winning, with the same errors |
| Batches.Align | swanlake-core/src/engine/batch.rs:180-262 | The method computes the reference alignment, or fails on the same inputs |
| MultiRowInsert.ReshapedIff | swanlake-core/src/engine/batch.rs:52-115 | A wide row can be reshaped exactly when the parameters of each column share its type and are missing only where its first may be |
| MultiRowInsert.ParametersLand | swanlake-core/src/engine/batch.rs:180-262 | A wide row becomes one row per group of parameters: each lands, cast, in its row of the column it names, unnamed columns are null; it is accepted exactly when a condition checked beforehand holds |
| MultiRowInsert.NamedFieldsLand | swanlake-core/src/engine/batch.rs:154-173 | Without positional names and without a column list a table column takes the last field of its name, or null |
| MultiRowInsert.ListedFieldsLand | swanlake-core/src/engine/batch.rs:117-153 | With a column list it takes the first field of its name when listed, and null otherwise; every listed name needs a field |
| MultiRowInsert.CountedIsPositional | swanlake-core/src/engine/batch.rs:12-43 | Names that count up from zero or one, with or without a dollar sign, are positional |
| ParameterSchema.AnnouncedIff | swanlake-core/src/service/handlers/prepared.rs:173-223 | A schema is announced exactly for placeholders alone, as many as the rows hold, or one per column when the rows are no rectangle, and columns of the table |
| ParameterSchema.InferredFields | swanlake-core/src/service/handlers/prepared.rs:173-223 | The announced schema of an INSERT has one field per parameter, that of the column its name finds |
| ParameterSchema.ParameterLandsIff | swanlake-core/src/service/handlers/prepared.rs:173-223 | Parameter i lands in the column announced for it exactly when the statement spells that column as the table does |
| ParameterSchema.BoundParameterLands | swanlake-core/src/service/handlers/prepared.rs:173-223 | A batch bound by the announced schema lands unchanged: an exactly spelled parameter in the column announced for it, whatever its value |
| ParameterSchema.OtherCaseIsDropped | swanlake-core/src/engine/batch.rs:241-256 | A name in another case is announced as a column of the table, but its parameters are dropped and the column comes out null |
| ParameterSchema.TwoSpellings | swanlake-core/src/service/handlers/prepared.rs:173-223 | Two spellings of one column are both announced as that column |
| ParameterSchema.NoListIsAllColumns | swanlake-core/src/engine/batch.rs:117-262 | For positional parameters an INSERT without a column list is aligned as if it listed the table's columns in order |
| ParameterSchema.UnlistedParameterLands | swanlake-core/src/service/handlers/prepared.rs:210-225 | Without a column list every parameter lands unchanged in the column announced for it, row by row |
| Placeholders.Collector.CollectWithColumn | swanlake-core/src/sql/parser.rs:323-350 | The recursion pushes the reference placeholders with the given column |
| Placeholders.Collector.CollectParams | swanlake-core/src/sql/parser.rs:352-404 | The recursion, with its early returns on a grown vector, pushes the reference placeholders |
| Placeholders.ParamsInOrder | swanlake-core/src/sql/parser.rs:352-404 | What is collected is a subsequence of the placeholders in text order, none twice |
| Placeholders.CollectedInOrder | swanlake-core/src/sql/parser.rs:103-133 | The same for whole statements |
| Placeholders.ShapeColumns | swanlake-core/src/sql/parser.rs:315-404 | The column of a comparison on either side, a BETWEEN and an IN list is the last part of the name the placeholders are compared with |
| Placeholders.FoundInTree | swanlake-core/src/sql/parser.rs:352-404 | What a condition gives stays together in any tree of connectives, parentheses and casts around it |
| Placeholders.AllAreFound | swanlake-core/src/sql/parser.rs:323-350 | Every placeholder of the value of an assignment is found, with its column, when none stands in a shape the collector does not enter |
| Placeholders.LonePlaceholder | swanlake-core/src/sql/parser.rs:352-404 | A placeholder that is itself a condition leaves the statement without a schema |
| Placeholders.CountCheckAligns | swanlake-core/src/service/handlers/prepared.rs:225-242 | When the count check passes against the placeholders in the text, none was left out and field i belongs to the i-th placeholder |
| Placeholders.NumberedAlignIff | swanlake-core/src/service/handlers/prepared.rs:225-233 | Whatever the parameter count, with columns all different the announced schema fits the parameters' numbers exactly when every column was found and the placeholders stand in the order of their numbers |
| Placeholders.NoneSkippedIff | swanlake-core/src/service/handlers/prepared.rs:225-242 | When the check passes against the number of different parameters, no placeholder was left out exactly when no number is used twice |
| Placeholders.ReusedNumber | swanlake-core/src/service/handlers/prepared.rs:225-233 | `a = $1 AND f($2) AND b = $1` passes the check with $2 left out, and $2 is announced with the field of b |
| Placeholders.NumberedOutOfOrder | swanlake-core/src/service/handlers/prepared.rs:225-233 | A statement with $2 before $1 passes the check and announces the two fields the wrong way round |
| SchemaCache.SchemaCache.GetSchema | swanlake-core/src/session/mod.rs:101-105 | A hit touches the key and returns its schema; a miss changes nothing |
| SchemaCache.SchemaCache.InsertSchema | swanlake-core/src/session/mod.rs:107-111 | Inserting stores the schema, touches the key and evicts the oldest keys beyond the capacity |
| SchemaCache.SchemaCache.TouchKey | swanlake-core/src/session/mod.rs:118-121 | The key moves to the end of the order and the others keep theirs |
| SchemaCache.SchemaCache.EvictIfNeeded | swanlake-core/src/session/mod.rs:123-132 | The loop drops the oldest keys until the entries fit |
| SchemaCache.CacheIsLru | swanlake-core/src/session/mod.rs:85-132 | After every run the order has each key once and at most 128 keys, and a get hits exactly the 128 most recently touched keys since the last clear, with the schema last inserted |
| Lockdown.LockdownState.EnsureLockdown | swanlake-core/src/session/mod.rs:350-368 | The block runs only when it has not run through before, and only its success is remembered |
| Lockdown.LockdownComesFirst | swanlake-core/src/session/mod.rs:350-427 | In every run no user statement reaches the engine before the block ran through, it runs through once, and for a non-writer it allows exactly the roots armed before it and the scratch directory |
| Lockdown.AfterLockdown | swanlake-core/src/session/mod.rs:374-427 | Afterwards the roots are frozen and a non-writer's attached catalogs never go beyond those attached at that moment |
| Lockdown.RootsAreBrought | swanlake-core/src/session/mod.rs:374-427 | Until the block runs a confined session has armed exactly the roots its attachments brought |
| Lockdown.AttachesIff | swanlake-core/src/session/mod.rs:374-427 | An attachment goes through exactly for a writer, before the block, or for a catalog already attached; before the block it arms its roots |
| Lockdown.AdmittedRuns | swanlake-core/src/session/mod.rs:350-372 | An admitted statement reaches the engine behind the block |
| Lockdown.FailedBlockIsForgotten | swanlake-core/src/session/mod.rs:350-372 | A block that fails is not remembered and its statement is over |
| LockdownBlock.BlockSplits | swanlake-core/src/session/mod.rs:188-212 | The block splits into its six or ten statements and no others, whatever text the directories are |
| LockdownBlock.BlockSays | swanlake-core/src/session/mod.rs:163-212 | The block turns the extensions off and locks the configuration last; for a non-writer it allows exactly the listed roots and the scratch directory and turns external access off |
| LockdownBlock.LexLiteral | swanlake-core/src/session/mod.rs:210-212 | An escaped directory is one quoted lexeme |
| Transactions.TransactionBook.MarkAborted | swanlake-core/src/session/mod.rs:542-550 | Every id taken is inserted among the aborted ones |
| Transactions.Bookkeeping | swanlake-core/src/session/mod.rs:496-587 | In every interleaving active and aborted ids are disjoint, each was drawn, none is reported aborted twice, and no statement runs more than twice |
| Transactions.DrawnIdIsNew | swanlake-core/src/session/mod.rs:995-1013 | A new transaction's id was never used before |
| Transactions.LaterEndsAreNoOps | swanlake-core/src/session/mod.rs:1027-1065 | Once reported as aborted, an id never comes back and every later end of it is a no-op that never reaches the engine |
| Transactions.RecoveryMovesAll | swanlake-core/src/session/mod.rs:523-559 | Whatever other calls do between its two critical sections, a recovery moves every id that was active to the aborted ones and takes none away |
| Transactions.AbsentEndIff | swanlake-core/src/session/mod.rs:523-588 | After every run an end of a drawn id that is not active, reported or ended answers a no-op exactly while a recovery has the id in hand, and that it was aborted otherwise |
| Transactions.AbortedEndIsNoOp | swanlake-core/src/session/mod.rs:523-588 | A run from the start reaches the no-op for an aborted transaction |
| Transactions.EndDuringRecovery | swanlake-core/src/session/mod.rs:1027-1065 | An end that comes between the two critical sections of a recovery finds its id in neither set and answers a no-op |
| Transactions.NoIdIsLost | swanlake-core/src/session/mod.rs:496-587 | After every run every id ever drawn is active, aborted, reported, with a call, or ended |
| Transactions.BeginIsActive | swanlake-core/src/session/mod.rs:995-1013 | A begin that succeeds leaves one new id active |
| Transactions.EndCloses | swanlake-core/src/session/mod.rs:1027-1065 | An end of an active id that succeeds closes it and leaves it in no set |
| Transactions.AbortedRunsAgainIff | swanlake-core/src/session/mod.rs:496-559 | A statement that finds its transaction aborted is rolled back and runs once more exactly when its caller wants that |

## Left out

- AdmissionLaws.AdmittedIsClean: what it says of COPY, CALL and CREATE needs the bare keyword as first token, as what the source classifies does.
- Non-ASCII text in the byte-as-character scanners, and Unicode case mapping in type names: the model is about the ASCII range.
- Filter semantics are those of an arbitrary engine for comparisons, patterns, functions and constants of other types; casts are taken as the identity, as the printer does.
- `Faithful` filters have operands where the printer puts no parentheses; a comparison nested directly in a comparison, or a BETWEEN operand that is itself a test, is not covered.
- ReadOnlyFlags.FlagInForceIff: says when stripping changes nothing; a block comment that closes before the flag changes the text and leaves the flag in force.
- FilterWeakening.RowIsLostIff: takes siblings that leave the decision to the node they surround; a sibling that decides the row by itself keeps or loses it whatever is dropped.
- FilterConstants.ConstantReadsBackIff: takes arrays and objects as text that opens with a bracket or a brace, as JSON prints them; numbers are compared as text.
- DataPaths.NormalizeKeepsDataPath: takes a terminated path; an unterminated one swallows what is printed behind it.
- SyncPool.FailedReacquire: the waiting turns are those that evict nothing; a turn that evicts is covered by the accounting.
- ParameterSchema.ParameterLandsIff: takes a parameter whose value tells it from the others of its row, as landing is seen by its value.
- Streaming.ExecInv: covers normal and error returns; a panicking producer leaves the monitor's sender behind and is not modelled. Progress numbers and resource snapshots are inputs.
- AsyncPool.Accounting: does not cover futures dropped half-way or poisoned locks, after which the code does not give its count back.
- SyncPool.Accounting: says nothing about waking waiters; a dropped connection notifies nobody in the source.
- Waiting times, deadlines and fairness: a wait ends when the environment lets it.
- Lockdown.AfterLockdown: takes from statement admission that a user statement attaches no catalog; the engine's own confinement is not modelled.
- The order of the roots in the lockdown block: `Lockdown` allows any listing without repetition, the source lists them sorted.
- Registry: nonces are numbers in the order of creation where the source draws UUIDs; the two authorization questions are answered by the environment, and token validation is an input.
- Batches: casting is a parameter; a reshape by zero columns, which no caller asks for, is not modelled; field metadata is not modelled.
- ParameterSchema: the SQL parser is an input (the column list and the row widths); a table has at least one column.
- Placeholders: expressions are the shapes the collectors look at, and one shape for all others.
- Metrics, query progress, checkpoints, catalog metadata handlers, configuration, the CLI and the wire formats: library code, I/O, or easy facts.
- `run_interruptible` and `interrupt_all`: they use interrupt handles outside the cancellation protocol.
- `catalog_search_path_sql`, `should_invalidate_schema_cache` and `creates_persistent_secret` as loops: small keyword checks; the last is part of `Admission` as a function.
