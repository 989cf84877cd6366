# VoiceAssistantSkill: a verified model

The repository is three asynchronous programs that talk JSON over TCP: a main server, a voice-skill
worker, and a wrapper around a SQLite file. This project models the state machines behind their sockets and
proves what they keep over every run.

| file | models |
|---|---|
| `Text.dfy`, `Json.dfy` | strings, JSON values, the text the serialiser writes (sections 2 and 7 of RFC 8259) |
| `JsonReader.dfy` | a reader of that text by the grammar of RFC 8259, and that it inverts the serialiser |
| `JsonFormatter.dfy`, `SelectText.dfy` | the messages of the database protocol and the SELECT text, each with a reader |
| `Sqlite.dfy` | SQLite as a function from query text to rows or an error; the column view of rows; a database of tables |
| `DataBaseServer.dfy` | the wrapper's session: login, query, disconnect, rows gathered into columns |
| `ClientDB.dfy` | the refresh client: three queues, two flags, the result map |
| `Refresh.dfy`, `RefreshTheorems.dfy` | both composed, every completion with or without an I/O error; what a refresh delivers |
| `RefreshBytes.dfy` | the same composition byte by byte: partial writes, chunks, and what outlives a connection |
| `Heartbeat.dfy` | the worker session of the main server: two deadline timers, aborted waits, the event loop |
| `Keywords.dfy`, `WorkerM.dfy`, `DialogTheorems.dfy` | the keyword index and the dialog engine, over traces of requests |
| `Answers.dfy` | what a station is answered, told from the rows its words hit |
| `Pipeline.dfy` | from database rows to the worker's index: the daily refresh end to end |
| `WorkerLife.dfy` | the worker over its whole life: requests of stations interleaved with refreshes of its tables |
| `Framing.dfy`, `PartialSend.dfy` | the byte layer: cutting a stream into documents, putting one reply together, partial writes |
| `Logger.dfy`, `Reaper.dfy`, `Configer.dfy` | log rotation, the session reapers, the configuration reader |

Each C++ class whose handlers change fields is a Dafny class. Its methods are proved against functions on
a plain value of that state, and the theorems are about runs of those functions.

How a run is modelled:

* One thread runs the handlers. A completion is an event; what the network or the clock does is an argument.
* In `Refresh` a run is a list of booleans, one a completion, `true` for an I/O error; messages are sent and
  received whole. In `RefreshBytes` a run is a list of signals, each moving some bytes or failing, and the send
  counter and the parser outlive a connection; each side handles what it reads in the bytes.
  A run over bytes is a run of `Refresh` (`RefreshBytes.EveryRunOfBytes`); whether it also ends is settled there
  (`RefreshBytes.EndsExactly`).
  A send that fails is one the server never handles, and a server process that dies is not started again.
* In `Heartbeat` completed waits run in the order they were posted. Socket completions may come at any
  moment in between. Timers are urgent: time does not pass a due wait.
* In `WorkerM` each request carries its outcome of `rand`. Tables, texts and the schedule are arguments.
* A `db` is a function from query text to a result, the same for a whole run. A column name in a result is the
  name asked for. A NULL cell makes the row callback fail, as constructing a string from a null pointer throws.

## What the code does that one might not expect

Each is a lemma below, with the exact condition.

* An I/O error while a query or its answer is outstanding loses that table for the run, its job being popped
  already; no other error loses a table (`RefreshTheorems.EveryRun`, `RefreshTheorems.NothingLostExactly`).
* An I/O error in the middle of a reply, wherever it is cut, silences the refresh client for good: the parser is
  not reset, takes the answer to every later login for more of the same document, and there is never a callback.
  An error between messages does no such harm (`RefreshBytes.EndsExactly`, `RefreshBytes.DeafForGood`,
  `Framing.HandedOverExactly`, `Framing.FrontStale`, `Framing.StaleParserSwallows`).
* A query whose selected rows are empty ends the server process instead of answering (`RefreshTheorems.CatalogAnswers`,
  `RefreshTheorems.RefreshDelivers`).
* A first refresh ends the worker unless its five keyword tables are all answered: their missing columns throw
  where nothing catches. A refusal of any query ends it, since no later query is asked and the last fills such a
  table; an I/O error ends it exactly when it loses one of them (`Pipeline.FirstRefreshExactly`,
  `Pipeline.OneErrorExactly`, `Pipeline.FirstRefreshSurvives`). No later refresh ends it
  (`WorkerLife.FirstCallbackDecides`).
* An account with a login of its own cannot log in when the password needs a JSON escape, and one whose login
  needs an escape is let in only by a row that stores the escaped texts (`DataBaseServer.OwnAccountAdmitted`).
* A column asked for twice comes back with every value twice (`Sqlite.ColumnOfTable`).
* The places and score dialogs never answer from refreshed tables: stored cells keep their quotes and the
  direction has lost them (`DialogTheorems.PlacesNeverAnswered`, `WorkerLife.StepTwoNever`).
* An error in the middle of sending a message leaves the send counter, and the next message is then cut
  (`PartialSend.SentExactly`).
* A log rotation whose new file fails to open silences the log for good (`Logger.RotationFailureIsFinal`).
* A second reply to one ping, or a second login, stops the session if a ping wait is armed, which it aborts, or if
  the dead-ping wait has run out. Otherwise the session lives on with both waits armed, and the next reply,
  even one in time, stops it (`Heartbeat.UnsolicitedExactly`, `Heartbeat.DoubledStops`, `Heartbeat.UnsolicitedReached`).
* A ping and a station's request being sent at the same time ask for one receive between them. If the answer to the
  request comes first it takes that receive, the reply to the ping is never read, and the session is stopped as
  silent (`Heartbeat.RequestStarvesPing`; exactly when, `Heartbeat.HearsExactly`).
* A login over an accounts table that is empty or lacks a column gets no reply, and commands are then taken from it;
  a login no row stores ends the server process (`DataBaseServer.LoginFromRows`, `DataBaseServer.LoginLeadsTo`).
* A write to the log that fails after its file has opened loses the rest of its batch, and nothing else
  (`Logger.LostExactly`).
* The dialog of facts tests the wrong table before a modulo (`DialogTheorems.FactUndefinedExactly`), which no
  sequence of requests and refreshes can reach (`WorkerLife.NeverUndefined`).
* Conditions left from an earlier call stay in force when later ones are empty (`ClientDB.ClientDB.SetQuerys`).

## Model

| member | source | states |
|---|---|---|
| SelectText.BuildSelect | src/lib/GlobalModules/ClientDB/ClientDB.cpp:120-137 | the gluing loop writes the fields separated by ", ", the table, and the condition if there is one |
| SelectText.SelectReadBack | src/lib/GlobalModules/ClientDB/ClientDB.cpp:120-137 | an independent reader of the text gets back the job: its fields in order, its table and its condition |
| SelectText.SelectUnambiguous | src/lib/GlobalModules/ClientDB/ClientDB.cpp:120-137 | two different jobs with names free of spaces and commas never give the same text |
| Json.EscapeFixesPlain | src/Applications/SQLiteWebWrapper/Modules/Server/DataBaseServer.cpp:101-102 | serialising leaves a string as it is between the quotes exactly when no character needs an escape |
| Json.DequoteOfQuote | src/Applications/MarusiaWorker/Modules/Worker/WorkerM.cpp:162-163 | stripping quotes from a serialised string gives the string back exactly when no character needs an escape |
| JsonReader.ReadBack | src/Applications/SQLiteWebWrapper/Modules/Server/DataBaseServer.cpp:323 | reading what the serialiser wrote gives the value back, for every value |
| JsonReader.TextDetermines | src/lib/GlobalModules/ClientDB/ClientDB.cpp:139-140 | two values have the same text exactly when they are equal |
| JsonReader.EscapeDetermines | src/Applications/SQLiteWebWrapper/Modules/Server/DataBaseServer.cpp:101-102 | two strings are escaped alike exactly when they are equal |
| JsonFormatter.QueryRequest | src/lib/GlobalModules/JSONFormatter/JSONFormatter.cpp:174-194 | the loop over the fields builds the request with all of them, in order |
| JsonFormatter.QueryReply | src/lib/GlobalModules/JSONFormatter/JSONFormatter.cpp:214-234 | the two loops give every column its array, in row order, whatever the order of the map |
| JsonFormatter.MessagesCarry | src/lib/GlobalModules/JSONFormatter/JSONFormatter.cpp:158-212 | every message names its sender and target, a login its credentials in their places, a refusal its code and text |
| JsonFormatter.ReplyCarries | src/lib/GlobalModules/JSONFormatter/JSONFormatter.cpp:214-234 | a query's reply holds every column under its name, cell by cell, and no other member but the method |
| JsonFormatter.QueryRequestReadBack | src/Applications/SQLiteWebWrapper/Modules/Server/DataBaseServer.cpp:277-288 | the server reads out of a request exactly the fields and the text the client put in |
| ClientDB.QueryReplyReadBack | src/lib/GlobalModules/ClientDB/ClientDB.cpp:256-275 | the client reads out of a reply exactly the columns the server put in, each cell serialised |
| Sqlite.ColumnIsTranspose | src/Applications/SQLiteWebWrapper/Modules/Server/DataBaseServer.cpp:399-428 | a column whose name is used once has one value a row, the row's own cell |
| Sqlite.ColumnLength | src/Applications/SQLiteWebWrapper/Modules/Server/DataBaseServer.cpp:399-428 | a column has as many values as rows times the occurrences of its name |
| Sqlite.ColumnOfTable | src/Applications/SQLiteWebWrapper/Modules/Server/DataBaseServer.cpp:299-319 | over selected rows, the column delivered is the table's own exactly when its field was asked for once |
| DataBaseServer.DataBase.Connection | src/Applications/SQLiteWebWrapper/Modules/Server/DataBaseServer.cpp:399-428 | a row extends every column by its cells of that name; code 1, the abort, exactly on a NULL cell |
| DataBaseServer.DataBase.SqliteExec | src/Applications/SQLiteWebWrapper/Modules/Server/DataBaseServer.cpp:299-311 | success exactly when SQLite gives rows without NULL, and then the answer is the column view of all rows |
| DataBaseServer.DataBase.PickColumns | src/Applications/SQLiteWebWrapper/Modules/Server/DataBaseServer.cpp:313-320 | the requested columns, or the exception when one of them never got a value |
| DataBaseServer.DataBase.MakeQuery | src/Applications/SQLiteWebWrapper/Modules/Server/DataBaseServer.cpp:277-327 | a query is answered, refused by a disconnect message, or fatal, as the result of SQLite says |
| DataBaseServer.DataBase.CheckConnect | src/Applications/SQLiteWebWrapper/Modules/Server/DataBaseServer.cpp:333-398 | the verdict on a login in all its cases, the swallowed exception and the index -1 included |
| DataBaseServer.AdmittedExactly | src/Applications/SQLiteWebWrapper/Modules/Server/DataBaseServer.cpp:365-390 | admission is decided by the first row storing the escaped login, whose password must be the escaped one |
| DataBaseServer.VerdictExactly | src/Applications/SQLiteWebWrapper/Modules/Server/DataBaseServer.cpp:365-395 | mismatch, unknown login, missing column and admission each exactly by the first row storing the escaped login |
| DataBaseServer.AccountsExactly | src/Applications/SQLiteWebWrapper/Modules/Server/DataBaseServer.cpp:333-364 | refusal for want of a database or of an answer to the accounts query, exactly |
| DataBaseServer.LoginLeadsTo | src/Applications/SQLiteWebWrapper/Modules/Server/DataBaseServer.cpp:48-116 | commands are taken exactly after an admission or a missing column, a refusal is told and closes, an unknown login ends the process |
| DataBaseServer.LoginFromRows | src/Applications/SQLiteWebWrapper/Modules/Server/DataBaseServer.cpp:333-398 | over a database of tables, the verdict from the rows of the accounts table |
| DataBaseServer.UnreadLogin | src/Applications/SQLiteWebWrapper/Modules/Server/DataBaseServer.cpp:99-115 | a login request without its members is dropped and the session waits for another |
| DataBaseServer.NoDatabaseNoAnswer | src/Applications/SQLiteWebWrapper/Modules/Server/DataBaseServer.cpp:438-454 | a session over a database that does not open answers no request |
| DataBaseServer.OwnAccountAdmitted | src/Applications/SQLiteWebWrapper/Modules/Server/DataBaseServer.cpp:365-390 | an account gets in with its own stored data exactly when the first row storing its escaped login stores its escaped password; with a plain login of its own, exactly when the password is plain |
| DataBaseServer.DataBase.Start | src/Applications/SQLiteWebWrapper/Modules/Server/DataBaseServer.cpp:438-454 | a session over a database that does not open is closed before any login |
| DataBaseServer.DataBase.LogIn | src/Applications/SQLiteWebWrapper/Modules/Server/DataBaseServer.cpp:48-116 | one login request up to its sent reply moves the session as the protocol function says |
| DataBaseServer.DataBase.RunCommand | src/Applications/SQLiteWebWrapper/Modules/Server/DataBaseServer.cpp:165-191 | the command switch: reply, close flag and crash for every request |
| DataBaseServer.CommandLeadsTo | src/Applications/SQLiteWebWrapper/Modules/Server/DataBaseServer.cpp:165-191 | from which requests a crash, a close, a second login or a reply follows, exactly |
| DataBaseServer.LookupExactly | src/Applications/SQLiteWebWrapper/Modules/Server/DataBaseServer.cpp:277-327 | refused exactly without rows or for a NULL, fatal exactly for a requested column without values, else every cell |
| DataBaseServer.DataBase.Exchange | src/Applications/SQLiteWebWrapper/Modules/Server/DataBaseServer.cpp:117-239 | flags and outstanding receives implement the stages login, commands, closed, crashed |
| ClientDB.ClientDB.SetQuerys | src/lib/GlobalModules/ClientDB/ClientDB.cpp:47-66 | when the three queues are left in step, and the job list they then stand for: with the new conditions, with those of an earlier call, or with none |
| ClientDB.ClientDB.TakeJob | src/lib/GlobalModules/ClientDB/ClientDB.cpp:114-137 | the pops take one job with its own fields and condition, the last condition switching conditions off |
| ClientDB.ClientDB.QueryGenerator | src/lib/GlobalModules/ClientDB/ClientDB.cpp:110-154 | next query, disconnect or callback; queues stay in step |
| ClientDB.ClientDB.CheckConnect | src/lib/GlobalModules/ClientDB/ClientDB.cpp:79-109 | reconnect on error, else greet, stop or go on, by the two flags |
| ClientDB.ClientDB.SendCommand | src/lib/GlobalModules/ClientDB/ClientDB.cpp:155-177 | a sent message leads to one receive, an error to one reconnect |
| ClientDB.ClientDB.ReciveCommand | src/lib/GlobalModules/ClientDB/ClientDB.cpp:179-218 | a failed receive leads to one reconnect, a message to its analysis |
| ClientDB.ClientDB.DecodeColumns | src/lib/GlobalModules/ClientDB/ClientDB.cpp:258-275 | all requested columns serialised, or nothing when one is missing or no array |
| ClientDB.ClientDB.CommandAnalize | src/lib/GlobalModules/ClientDB/ClientDB.cpp:219-283 | every message, unknown and malformed ones included, moves flags, map and operations as stated |
| ClientDB.MessageEffects | src/lib/GlobalModules/ClientDB/ClientDB.cpp:219-283 | which messages change the map, log in, make leave, end the client or leave it silent, exactly |
| ClientDB.DecodedExactly | src/lib/GlobalModules/ClientDB/ClientDB.cpp:252-275 | a reply is taken exactly when every requested column is an array, and then cell by cell |
| Refresh.StepMatches | src/lib/GlobalModules/ClientDB/ClientDB.cpp:79-283 | client and server composed refine a simple progress machine at every completion, with or without error |
| Refresh.RunMatches | src/lib/GlobalModules/ClientDB/ClientDB.cpp:79-283 | the refinement over whole runs from a started client |
| RefreshTheorems.EveryRun | src/lib/GlobalModules/ClientDB/ClientDB.cpp:79-283 | in every state of every run, with arbitrary I/O errors: at most one operation outstanding; the queries handed to the socket are those of the settled jobs and of the one under way, which with the queue are the initial jobs in order; the map is the old one overridden by exactly the answered jobs; at most one callback, with that map, only when all jobs are settled or one was refused; as many jobs lost as errors fell while a query or its answer was outstanding |
| RefreshTheorems.NothingLostExactly | src/lib/GlobalModules/ClientDB/ClientDB.cpp:155-196 | no job is lost if and only if no error falls while a query or its answer is outstanding, and then all settled jobs but a refused last one are answered |
| RefreshTheorems.AnyPeer | src/lib/GlobalModules/ClientDB/ClientDB.cpp:79-283 | against any peer and any I/O errors: one operation outstanding at most, the jobs left are the last of the initial ones, one callback at most and nothing outstanding after it |
| RefreshTheorems.EveryRunEnds | src/lib/GlobalModules/ClientDB/ClientDB.cpp:79-283 | with an admitted login and no fatal query, a run of 2 jobs + 5 completed operations and 5 more an error has fired its one callback and is idle |
| RefreshTheorems.RefreshDelivers | src/Applications/SQLiteWebWrapper/Modules/Server/DataBaseServer.cpp:277-327 | without I/O errors the callback fires, once and with the promised map, if and only if the login is admitted and no fatal query is reached |
| RefreshTheorems.RefreshedTable | src/lib/GlobalModules/ClientDB/ClientDB.cpp:242-282 | when query k is refused, tables answered before k are fresh from their last query and every other table is as before |
| RefreshTheorems.CatalogAnswers | src/Applications/SQLiteWebWrapper/Modules/Server/DataBaseServer.cpp:277-327 | over a database of tables: refused for an unknown table or column, fatal for no rows, else exactly the table's columns in row order |
| RefreshTheorems.TablesDelivered | src/lib/GlobalModules/ClientDB/ClientDB.cpp:79-283 | rows to callback: for any database of tables and any well-named jobs with known columns and selected rows, the one map delivered is the old one overridden by every table's own columns |
| RefreshBytes.EveryRunOfBytes | src/lib/GlobalModules/ClientDB/ClientDB.cpp:155-218 | whatever is accepted by a write, delivered by a receive or fails, a run over bytes is a run of the composed machine, with all that holds of it |
| RefreshBytes.UnderstoodIsMeant | src/lib/GlobalModules/ClientDB/ClientDB.cpp:155-218 | the message each side reads in the bytes is the one meant, and the only one with those bytes |
| RefreshBytes.WholeOrDeaf | src/lib/GlobalModules/ClientDB/ClientDB.cpp:155-218 | the inductive invariant: what is outstanding is a front of the message it should be, until an error finds a reply partly received; from then on the client is deaf |
| RefreshBytes.SignalsSpent | src/lib/GlobalModules/ClientDB/ClientDB.cpp:155-218 | without such an error every operation completes within as many signals as its message has bytes |
| RefreshBytes.EndsExactly | src/lib/GlobalModules/ClientDB/ClientDB.cpp:155-218 | of the runs in which no error finds a message partly sent, those long enough have fired their one callback if and only if no error found a reply partly received, and after one that did there is none |
| RefreshBytes.DeafForGood | src/lib/GlobalModules/ClientDB/ClientDB.cpp:179-218 | a deaf client stays deaf in every continuation in which no error finds a message partly sent, wherever later errors cut replies |
| Heartbeat.StepPhased | src/Applications/MainServer/Modules/Worker/Worker.cpp:241-298 | the inductive invariant: four phases of timers, queue and flags, left only by a fault or by handling the ran-out wait of an unanswered ping |
| Heartbeat.KilledExactly | src/Applications/MainServer/Modules/Worker/Worker.cpp:199-298 | over every run, station traffic included, the session is dead exactly when an I/O error, a failure reply or such a wait was handled: aborted waits never kill |
| Heartbeat.NoFalseKill | src/Applications/MainServer/Modules/Worker/Worker.cpp:241-298 | without faults, and with no dead-ping wait running out, the session lives |
| Heartbeat.DetectedInTime | src/Applications/MainServer/Modules/Worker/Worker.cpp:139-156 | a live session is within 30 seconds of its last processed reply, strictly once due handlers ran, and idle in exactly one phase |
| Heartbeat.PunctualExactly | src/Applications/MainServer/Modules/Worker/Worker.cpp:241-298 | to the microsecond: pings go out 10 seconds, and a silent session is stopped 30 seconds, after the login or the last processed reply |
| Heartbeat.HearsExactly | src/Applications/MainServer/Modules/Worker/Worker.cpp:199-298 | while a ping is out its reply is receivable until a document for a station takes the last receive, and again from the next request on |
| Heartbeat.PingHeard | src/Applications/MainServer/Modules/Worker/Worker.cpp:199-286 | over every healthy run without such a document, the reply to a ping that is out can be received and puts the session to rest |
| Heartbeat.RequestStarvesPing | src/Applications/MainServer/Modules/Worker/Worker.cpp:343-353 | a possible run without any fault in which that document comes and the session is stopped |
| Heartbeat.DeadIsSilent | src/Applications/MainServer/Modules/Worker/Worker.cpp:199-353 | a dead session stays dead and sends, receives and pings no more |
| Heartbeat.UnsolicitedExactly | src/Applications/MainServer/Modules/Worker/Worker.cpp:225-286 | in every phase, a second reply or login leaves the session live, its queue empty, if and only if no ping wait was armed and no dead-ping wait had run out; then both waits are armed |
| Heartbeat.DoubledStops | src/Applications/MainServer/Modules/Worker/Worker.cpp:241-298 | with both waits armed, the next reply, login, fault or expiry stops the session, and nothing else changes that state |
| Heartbeat.UnsolicitedReached | src/Applications/MainServer/Modules/Worker/Worker.cpp:139-156 | both outcomes of a second reply, and of a second login, happen in possible runs from a login |
| Heartbeat.Session.Autorization | src/Applications/MainServer/Modules/Worker/Worker.cpp:139-156 | login: live, ping wait armed, reply sent |
| Heartbeat.Session.Ping | src/Applications/MainServer/Modules/Worker/Worker.cpp:241-259 | an aborted wait stops the session; otherwise a live one asks for a receive, clears success and arms the dead-ping wait |
| Heartbeat.Session.AnalizePing | src/Applications/MainServer/Modules/Worker/Worker.cpp:260-286 | success cancels the dead-ping wait and re-arms the ping wait, anything else stops the session |
| Heartbeat.Session.DeadPing | src/Applications/MainServer/Modules/Worker/Worker.cpp:287-298 | stops the session unless the last ping was answered, aborted or not |
| Heartbeat.Session.SendCommand | src/Applications/MainServer/Modules/Worker/Worker.cpp:199-224 | a receive is posted once after a ping or request asked for it |
| Heartbeat.Session.ReciveCommand | src/Applications/MainServer/Modules/Worker/Worker.cpp:225-240 | dispatch of a received document by its kind |
| Heartbeat.Session.StartCommand | src/Applications/MainServer/Modules/Worker/Worker.cpp:343-353 | a station's request is sent only by a live session |
| Heartbeat.Session.Dispatch | src/Applications/MainServer/Modules/Worker/Worker.cpp:199-298 | the event loop hands a completion to its handler; every possible event moves the fields as the run function says |
| Heartbeat.Session.Stop | src/Applications/MainServer/Modules/Worker/Worker.cpp:113-126 | not live, both waits aborted |
| Keywords.ParseKeyWords | src/Applications/MarusiaWorker/Modules/Worker/WorkerM.cpp:144-185 | the erase loop cuts every stripped key at all its ';', in order; a missing column throws with the index emptied |
| Text.JoinOfSplit | src/Applications/MarusiaWorker/Modules/Worker/WorkerM.cpp:166-182 | the pieces hold no ';' and joined by ';' give the cell back |
| Text.SplitOfJoin | src/Applications/MarusiaWorker/Modules/Worker/WorkerM.cpp:166-182 | pieces without ';' joined by ';' are cut back into themselves |
| Keywords.FindVariant | src/Applications/MarusiaWorker/Modules/Worker/WorkerM.cpp:656-669 | the nested search returns the response of the first row hit |
| Keywords.FindVariantIsFirst | src/Applications/MarusiaWorker/Modules/Worker/WorkerM.cpp:656-669 | that is the first row with a piece inside the command, and "" when no row has one |
| Text.ContainsExactly | src/Applications/MarusiaWorker/Modules/Worker/WorkerM.cpp:662 | a piece is found in a command exactly when the command is something, the piece and something |
| Keywords.IndexAgrees | src/Applications/MarusiaWorker/Modules/Worker/WorkerM.cpp:144-185 | the index over stored cells is the one of the raw database strings exactly when none needs an escape |
| WorkerM.WorkerM.ClearZombieSessions | src/Applications/MarusiaWorker/Modules/Worker/WorkerM.cpp:558-567 | the restarting erase removes exactly the finished dialogs and terminates |
| WorkerM.WorkerM.FindDataInTable | src/Applications/MarusiaWorker/Modules/Worker/WorkerM.cpp:693-712 | the cell of the first row equal to the value, "" for a missing row or column |
| WorkerM.WorkerM.DialogSessionsStep | src/Applications/MarusiaWorker/Modules/Worker/WorkerM.cpp:445-557 | one step of the four dialogs changes the speaking station's entry only |
| WorkerM.WorkerM.ResponseTypeAnalize | src/Applications/MarusiaWorker/Modules/Worker/WorkerM.cpp:611-654 | what each phrase answers and which dialog it opens |
| WorkerM.WorkerM.FindSchedule | src/Applications/MarusiaWorker/Modules/Worker/WorkerM.cpp:670-691 | group, day and week taken from the command, with the two refusals |
| WorkerM.WorkerM.AnalizeRequest | src/Applications/MarusiaWorker/Modules/Worker/WorkerM.cpp:568-602 | output and dialog map after one request are those of the station's own dialog state and the cleaned map |
| Answers.NewCommandExactly | src/Applications/MarusiaWorker/Modules/Worker/WorkerM.cpp:587-601 | a station without a dialog is answered by the first row of the phrases its command hits, and not understood without one |
| Answers.BegunExactly | src/Applications/MarusiaWorker/Modules/Worker/WorkerM.cpp:611-691 | phrase by phrase: the text, the fact, the schedule of the first target and day named, and the dialog opened |
| Answers.ContinuedExactly | src/Applications/MarusiaWorker/Modules/Worker/WorkerM.cpp:445-557 | dialog by dialog and step by step: the answer, from which row and column, and what becomes of the dialog |
| Answers.SessionsExactly | src/Applications/MarusiaWorker/Modules/Worker/WorkerM.cpp:558-602 | after a request the speaker's dialog is as answered and the others are kept unless finished |
| WorkerM.WorkerM.SetDbInfo | src/Applications/MarusiaWorker/Modules/Worker/WorkerM.cpp:104-142 | throws exactly when one of five keyword tables lacks a column, else all tables come from the map |
| DialogTheorems.Noninterference | src/Applications/MarusiaWorker/Modules/Worker/WorkerM.cpp:445-602 | in any interleaved trace a station hears and ends up as in the trace of its own requests |
| DialogTheorems.ReachableSound | src/Applications/MarusiaWorker/Modules/Worker/WorkerM.cpp:445-557 | stored kinds and steps stay in range, a live dialog of interesting facts has facts, and no output is undefined |
| DialogTheorems.FactUndefinedExactly | src/Applications/MarusiaWorker/Modules/Worker/WorkerM.cpp:537-549 | testing the wrong table: exactly when, over arbitrary tables, the modulo by zero is reached |
| DialogTheorems.PlacesAnsweredExactly | src/Applications/MarusiaWorker/Modules/Worker/WorkerM.cpp:449-469 | a question is answered exactly when the first row equal to the direction has something in the wanted column |
| DialogTheorems.PlacesNeverAnswered | src/Applications/MarusiaWorker/Modules/Worker/WorkerM.cpp:484-505 | over quoted cells no direction is ever found |
| DialogTheorems.RefreshedTablesQuoted | src/Applications/MarusiaWorker/Modules/Worker/WorkerM.cpp:104-142 | tables taken from a delivered map are of that kind |
| DialogTheorems.StepTwoUnreachable | src/Applications/MarusiaWorker/Modules/Worker/WorkerM.cpp:445-518 | so no trace reaches step 2 |
| WorkerLife.CallbackDeliverable | src/Applications/MarusiaWorker/Modules/Worker/WorkerM.cpp:411-437 | every run of the worker's refresh client, I/O errors included, leaves a map got from its own by answers of the database, and calls back with nothing else |
| WorkerLife.NeverUndefined | src/Applications/MarusiaWorker/Modules/Worker/WorkerM.cpp:445-557 | over any interleaving of requests and refreshes the dialogs stay sound and no output is undefined |
| WorkerLife.FirstCallbackDecides | src/Applications/MarusiaWorker/Modules/Worker/WorkerM.cpp:104-142 | a worker that survived one callback survives every later refresh, whatever it loses |
| WorkerLife.StepTwoNever | src/Applications/MarusiaWorker/Modules/Worker/WorkerM.cpp:445-518 | over any interleaving of requests and refreshes no dialog of places or scores reaches step 2 |
| Pipeline.TableDelivered | src/Applications/MarusiaWorker/Modules/Worker/WorkerM.cpp:411-437 | a first refresh holds the i-th table exactly when its query was answered in turn |
| Pipeline.AnsweredExactly | src/Applications/MarusiaWorker/Modules/Worker/WorkerM.cpp:411-437 | each of the eight queries is answered exactly when its table exists with its columns and a row, and then with all rows |
| Pipeline.FirstRefreshSurvives | src/Applications/MarusiaWorker/Modules/Worker/WorkerM.cpp:104-142 | without I/O errors: if the first refresh calls back, columns are of equal length, and the callback does not throw exactly when all eight queries were answered |
| Pipeline.FirstRefreshExactly | src/Applications/MarusiaWorker/Modules/Worker/WorkerM.cpp:104-142 | over every run, I/O errors included: the map has columns of equal length, and its callback does not throw exactly when the five keyword tables were all answered |
| Pipeline.OneErrorExactly | src/Applications/MarusiaWorker/Modules/Worker/WorkerM.cpp:104-142 | with all queries answered, one error on the sending of the i-th query still ends in one callback, which throws if and only if that is a keyword table's |
| Pipeline.TablesFromRows | src/Applications/MarusiaWorker/Modules/Worker/WorkerM.cpp:104-185 | after a first refresh with all queries answered each of the eight tables of the worker comes from the database table of its name: five indexes, the direct ones of the rows exactly when no cell needs an escape, and three sets of columns |
| Pipeline.AnsweredFromRows | src/Applications/MarusiaWorker/Modules/Worker/WorkerM.cpp:587-669 | over such tables a new command is answered by the first row of "StaticPhrases" one of whose key words occurs in it |
| Pipeline.DailyRefresh | src/Applications/MarusiaWorker/Modules/Worker/WorkerM.cpp:411-437 | admitted, and with rows in all eight tables, the refresh runs to one callback whose map holds every table's own columns, and the worker's tables are then those of the rows |
| Framing.Receiver.ReciveCheck | src/Applications/MainServer/Modules/Worker/Worker.cpp:157-189 | one chunk queues exactly the documents its bytes up to a NUL complete and leaves the parser where decoding leaves it; SUCCESS exactly at a document boundary with no NUL |
| Framing.Receiver.ReciveCommand | src/Applications/MainServer/Modules/Worker/Worker.cpp:225-240 | a batch is handled once it ends with a whole document, and of it only the first one |
| Framing.DecodeAppend | src/Applications/MainServer/Modules/Worker/Worker.cpp:157-189 | decoding does not depend on where the bytes are cut |
| Framing.ChunkingIndependent | src/Applications/MainServer/Modules/Worker/Worker.cpp:157-189 | documents and residual parser over any chunks are those of the concatenated bytes |
| Framing.ObjectFramed | src/Applications/MainServer/Modules/Worker/Worker.cpp:157-189 | a serialised object, brackets and escapes in strings included, is one document ending at its last byte |
| Framing.ArrayFramed | src/Applications/MainServer/Modules/Worker/Worker.cpp:157-189 | so is a serialised array |
| Framing.NulCuts | src/Applications/MainServer/Modules/Worker/Worker.cpp:162 | the bytes looked at are those before the first NUL |
| Framing.StreamDecoded | src/Applications/MainServer/Modules/Worker/Worker.cpp:157-189 | any segmentation of serialised objects yields exactly their texts in order |
| Framing.DecodeConserves | src/Applications/MainServer/Modules/Worker/Worker.cpp:157-189 | the documents found and what the parser holds are together exactly the bytes received |
| Framing.Assembler.ReciveCommand | src/lib/GlobalModules/ClientDB/ClientDB.cpp:192-217 | the refresh client releases a document only when it ends with the chunk; bytes after the end make the parser fail |
| Framing.ReplyAssembled | src/lib/GlobalModules/ClientDB/ClientDB.cpp:192-217 | over any chunks of one serialised reply, only the last receive hands over a document, that reply, and the parser is fresh again |
| Framing.HandedOverExactly | src/lib/GlobalModules/ClientDB/ClientDB.cpp:192-217 | over any chunks, a serialised reply is handed over if and only if the parser is fresh |
| Framing.SurplusFails | src/lib/GlobalModules/ClientDB/ClientDB.cpp:192-217 | bytes after the end of a reply in its last chunk lose it and every later one |
| Framing.FrontStale | src/lib/GlobalModules/ClientDB/ClientDB.cpp:179-196 | every proper front of a serialised reply leaves a parser inside it, the first byte one between two tokens |
| Framing.TameUnheard | src/lib/GlobalModules/ClientDB/ClientDB.cpp:192-217 | wherever the parser stands, inside a string or an escape too, a reply without brackets and escapes in its strings completes no document |
| Framing.StaleParserSwallows | src/lib/GlobalModules/ClientDB/ClientDB.cpp:179-196 | a parser left between two tokens of a reply takes in any number of later replies without completing a document |
| PartialSend.Sender.SendCommand | src/lib/GlobalModules/ClientDB/ClientDB.cpp:155-177 | counter, next slice and completion after a partial write; an error leaves the counter |
| PartialSend.ChainTiles | src/Applications/MainServer/Modules/Worker/Worker.cpp:190-224 | from counter 0 every slice is what is left of the buffer and the bytes accepted are its front |
| PartialSend.ChainEnds | src/Applications/SQLiteWebWrapper/Modules/Server/DataBaseServer.cpp:200-239 | from counter 0 a chain of acceptable writes ends with the whole message after at most one a byte |
| PartialSend.SentExactly | src/lib/GlobalModules/ClientDB/ClientDB.cpp:155-177 | a chain that ends has sent exactly the message if and only if the counter was 0 when it began |
| Logger.Logger.WriteLog | src/lib/GlobalModules/Logger/Logger.cpp:50-74 | a message is queued and the queue flushed at its limit |
| Logger.Logger.WriteLogQueue | src/lib/GlobalModules/Logger/Logger.cpp:75-108 | rotation by size, then the queue popped in order into the file as far as writing works, or kept when the file does not open |
| Logger.LostExactly | src/lib/GlobalModules/Logger/Logger.cpp:50-108 | over any run that never rotates to an older file: files in rotation order and then the queue hold the messages logged in order, but for exactly the tails of the batches whose writing failed; all of them if and only if none failed |
| Logger.NoneMislaid | src/lib/GlobalModules/Logger/Logger.cpp:50-108 | over any run, whatever names rotations take: files, queue and lost tails hold each message as often as it was logged |
| Logger.FilesBounded | src/lib/GlobalModules/Logger/Logger.cpp:7-8 | with fresh names and batches of at most 2048 bytes no file exceeds 102400 bytes, whatever fails |
| Logger.RotatesExactly | src/lib/GlobalModules/Logger/Logger.cpp:78-86 | a flush turns to another file exactly when the current one has more than 100352 bytes |
| Logger.RotatesWhenFull | src/lib/GlobalModules/Logger/Logger.cpp:75-108 | over any run that never rotates to an older file, every file left behind has more than that |
| Logger.FlushesWhenFull | src/lib/GlobalModules/Logger/Logger.cpp:69-72 | as long as files open, what is queued is the number of messages modulo the queue's limit |
| Logger.RotationFailureIsFinal | src/lib/GlobalModules/Logger/Logger.cpp:75-99 | once the current file is missing nothing is ever written again |
| Logger.RotationFailureExactly | src/lib/GlobalModules/Logger/Logger.cpp:75-99 | a flush brings that about exactly when it rotates to an unused name and cannot open it |
| Reaper.Reaper.KillSession | src/Applications/MainServer/Modules/Worker/Worker.cpp:55-73 | one scan removes the first dead session and picks the period |
| Reaper.ScanDropsOne | src/Applications/MainServer/Modules/HTTPSServer/HTTPSServer.cpp:371-388 | a scan drops one dead session and no live one, and asks for a rescan exactly when it did |
| Reaper.ReapedExactly | src/Applications/MainServer/Modules/Worker/Worker.cpp:55-73 | as many scans as dead sessions leave exactly the live ones in order, and only the next scan returns to the long period |
| Configer.Configer.ReadConfig | src/lib/GlobalModules/Configer/Configer.cpp:54-83 | the line loop reads the pieces between newlines, the final one included |
| Configer.ConfigReadBack | src/lib/GlobalModules/Configer/Configer.cpp:54-83 | a written file reads back as every key with its first value, plus only the empty key of the last line |

## Left out

- Sockets, TLS, HTTP and Boost.JSON's own parser: only completions, byte counts and where an object ends. A text the parser rejects is scanned on; a parser that has rejected one completes no document either.
- Logger.LostExactly: a line cut in the middle by a failed write counts as lost.
- The serialiser of values that are no strings: an argument of the client, as the server sends strings only.
- Numbers with a fraction or an exponent, white space in messages, and surrogate pairs in `\u` escapes: no message has one.
- A whitespace byte between two documents: the scanner takes it into the next document, and no serialised message has one.
- Framing.Receiver.ReciveCheck: a receive of exactly 2048 bytes, after which the loop reads past the buffer.
- Framing.Receiver.ReciveCommand: the same.
- DataBaseServer.Serve: a second connect on an open connection leaves two receives outstanding, and the session is not followed further.
- DataBaseServer.DataBase.RunCommand: the same; such a connect is flagged and its reply is not described.
- ClientDB.ClientDB.SendCommand: completes whole messages; the counter and partial writes of these lines are in `PartialSend`.
- ClientDB.ClientDB.ReciveCommand: receives whole messages; the parser kept across receives is in `Framing.Assembler`.
- RefreshTheorems.EveryRun: is about whole messages; counter, parser and partial transfers are in `RefreshBytes.EveryRunOfBytes`.
- RefreshTheorems.NothingLostExactly: the same; a table not lost is still not delivered once the client is deaf.
- RefreshTheorems.EveryRunEnds: is about whole messages; an error inside a reply ends no run, as `RefreshBytes.EndsExactly` says.
- RefreshBytes.EndsExactly: a message begun at another counter than 0 is followed no further, so that errors inside a send are excluded; such a message is never the one meant (`PartialSend.SentExactly`), and what the wrapper makes of it is not modelled.
- RefreshBytes.EveryRunOfBytes: the same message is sent there without an effect.
- WorkerLife.CallbackDeliverable: a daily refresh that starts while an earlier one still redials or waits; the two then share socket, queues and table name.
- A request cut into two receives in the wrapper or the worker, where a different handler continues.
- Two sends sharing the one static counter, and a handler running on a second thread.
- Heartbeat.KilledExactly: is about runs without a second reply or login; what those do is in `Heartbeat.UnsolicitedExactly` and `Heartbeat.DoubledStops`.
- A dialog request whose body is not valid JSON: it throws after the cleaning and is answered by nobody.
- The choice of a worker by memory load in the HTTPS server: one loop with an early exit, and station affinity is never switched on.
- `SystemStat`, `ScheduleManager`, start-up code, and the wrapper's reset timer, which erases under its own iterator.
