# ServerControl in Dafny

A model, with proofs, of the parts of ServerControl that hold state, parse text or
do arithmetic: the server's worker threads and HTTP parser, the terminal client that
drives it, and the type-erased completion handler of the bundled Asio.

| file | models |
|---|---|
| `Text.dfy` | the string-library operations the parsers use: searching, lines, decimal numbers |
| `Base64.dfy` | the codec of `server/main.cpp` and its copy in the client |
| `Http.dfy` | the printers and parsers of the hand-written HTTP messages, with stream state |
| `FileTransfer.dfy` | upload and download, through codec, names, printers and parsers |
| `Editor.dfy`, `Ui.dfy` | the file editor and the key handling around it |
| `Worker.dfy`, `TaskServer.dfy`, `CounterRace.dfy` | `runTask`, one server's threads as a step system, the id counter |
| `TaskManager.dfy`, `TaskProtocol.dfy` | the client's class, and client and servers together |
| `TaskReplies.dfy` | the replies to `/tasks` from printer to refresh key and main loop |
| `Discovery.dfy`, `CpuMonitor.dfy` | the discovery loop and the alert loop |
| `Handler.dfy`, `Allocator.dfy`, `Bits.dfy` | `any_completion_handler`, its over-aligned allocator, and the masking that aligns |

What the source updates in place is a class or a method with loops, whose contract equates
its new state with a function of the old one; the properties are lemmas about those
functions. Threads are step systems: a run is any sequence of enabled steps. Sockets,
processes, clocks and the JSON library are inputs: how a byte stream is cut, what a
process writes, what the clock shows, which reply comes back.

Where the code falls short of what its callers expect, the exact condition is proved:

- A POST or GET arrives as sent if and only if its path is a non-empty text without white
  space (`Http.PostFaithfulIff`, `Http.GetFaithfulIff`); a download is answered under the
  asked name if and only if the name holds no white space (`FileTransfer.DownloadNameFaithfulIff`).
- A response body is recovered if and only if it is empty, or some of it came with the
  headers and no error cut the rest off; otherwise failbit sticks and the body is lost
  (`Http.ResponseRecoveredIff`).
- The allocator's blocks all stay sound if and only if no granted request wraps `size_t`
  (`Allocator.RunSoundIff`); a request of 2^64 - 8 bytes is granted none, with its footer in
  front of the block (`Allocator.WrappedRequest`).
- Task ids are unique if and only if no two `++task_counter` overlap (`CounterRace.IdsUniqueIff`).
- A refresh is faithful if and only if no two servers have the same name (`TaskManager.RefreshFaithfulIff`).
- An answering address is listed if and only if its first answer has no ill-typed field
  (`Discovery.ListedIff`).
- A key throws in the editor if and only if the column is too far right for it
  (`Editor.ThrowsIff`); four keys are enough (`Editor.FourKeysThrow`).
- The client ends in an exception if and only if a round of its main loop meets a bad reply
  to its poll or its refresh key, or a column too far right (`Ui.RunCrashesIff`); a reply is
  bad if and only if it breaks off, an error cuts it, or no byte of its body comes with the
  headers (`TaskReplies.ReplyReadIff`). Left alone, the client runs on if and only if every
  reply to its polls gets through (`TaskReplies.IdleRunsIff`).
- A worker runs to its end if and only if every chunk that fgets cuts is UTF-8; otherwise the
  exception of `dump` ends the server (`Worker.RunTask`), which a character across byte 127
  of a line is enough for (`Worker.CutInsideCharacter`).
- No key sequence makes the UI send a command: the prompts' last `else` belongs to the
  inner `if`, so their buffers stay empty, and the client never has a task to show or to
  kill (`Ui.ReachableSafe`).

The repository's own README promises more than the code does: `Ctrl+X`, `Ctrl+C`, `Ctrl+V`
in the editor, rename, upload and download keys, and passing environment variables to
commands. The model follows the code.

## Model

| member | source | states |
|---|---|---|
| Text.ValueOfDecimal | server/main.cpp:421-421 | a printed number has the value it was printed from |
| Text.DecimalInjective | server/main.cpp:421-421 | different counter values give different task ids |
| Text.DigitIsItself | server/main.cpp:421-421 | the digits, written out |
| Text.StoulOfDecimal | server/main.cpp:387-395 | stoul reads a printed size back, whatever non-digit follows, up to 2^64 - 1 |
| Text.StoulOfSigned | server/main.cpp:387-395 | white space and a sign in front of a number: a minus takes it from 2^64, and past 2^64 - 1 it throws |
| Text.StoulOfNoNumber | server/main.cpp:387-395 | without a digit behind white space and sign, stoul throws |
| Text.IsSpaceIff | server/main.cpp:374-376 | the six characters that are white space |
| Base64.Base64Encode | server/main.cpp:282-323 | the buffer-and-loop encoder computes the group-of-three specification |
| Base64.EncodeByte | server/main.cpp:292-307 | one loop round keeps emitted text plus encoding of what is pending constant |
| Base64.EncodeTail | server/main.cpp:309-320 | one or two left-over bytes give one symbol more than they are, then padding |
| Base64.Base64Decode | server/main.cpp:325-368 | the decoder loop computes the group-of-four specification on the significant characters |
| Base64.DecodeByte | server/main.cpp:335-351 | one loop round keeps emitted bytes plus decoding of what is pending constant |
| Base64.DecodeTail | server/main.cpp:353-365 | up to three left-over symbols give one byte fewer than they are |
| Base64.EncodedShape | server/main.cpp:282-323 | encoded length is 4*ceil(n/3): symbols, then exactly (3 - n mod 3) mod 3 '=' |
| Base64.RoundTrip | server/main.cpp:282-368 | decoding an encoding gives back every byte string, with and without the padding |
| Base64.NoiseIgnored | server/main.cpp:335-337 | characters outside the alphabet change nothing anywhere, nor does anything after the first '=' |
| Base64.EncodeInvertsDecodeIff | server/main.cpp:282-368 | encode(decode(s)) = s for the canonical texts of RFC 4648 and for no others |
| Base64.EncodedGroupIs | server/main.cpp:282-307 | four symbols, as base-64 digits at their positions in the written-out alphabet, are the number that their three bytes are |
| Base64.EncodedTailIs | server/main.cpp:309-320 | the last group is that of its one or two bytes filled up with zero bits, with padding for what is missing |
| Base64.DecodedGroupIs | server/main.cpp:335-351 | three decoded bytes are the number that their four symbols are as base-64 digits |
| Base64.DecodedTailIs | server/main.cpp:353-365 | of an incomplete last group come its whole bytes |
| Base64.IsSymbolIff | server/main.cpp:335-337 | the decoder takes exactly the characters of the alphabet for symbols |
| Http.InputStream.ExtractWord | server/main.cpp:374-376 | `>>` on a string: skips white space, takes a word, sets failbit on none and then does nothing |
| Http.InputStream.GetLine | server/main.cpp:379-382 | getline: a line without its newline, failbit at the end of the data |
| Http.OutputStream.InsertBuffer | control/http/HttpClient.cpp:28-37 | `ss << &buf` drains the buffer; inserting nothing sets failbit and disables the stream |
| Http.HandleClient | server/main.cpp:370-416 | the request parser computes ServerParse for every split, exceptions included |
| Http.ReadHeaderLines | server/main.cpp:381-398 | the header loop finds the last Content-Length, or the exception of stoul, and stops at the blank line |
| Http.ReadRequestBody | server/main.cpp:401-416 | exactly Content-Length bytes, buffered ones first; fails when the stream ends early |
| Http.Receive | control/http/HttpClient.cpp:15-41 | the client's receiver computes ClientReceive for every split and either end of the second read |
| Http.BlockHeaderEnd | control/http/HttpClient.cpp:20-21 | the first blank line of a printed message is the end of its headers, whatever its body contains |
| Http.BlockHeadersRead | server/main.cpp:381-398 | reading a block of header lines gives the length they announce and leaves the body |
| Http.PostHeaderEnd | control/http/HttpClient.cpp:47-56 | the header block of a printed POST is everything but its body |
| Http.PostRoundTrip | control/http/HttpClient.cpp:47-56 | parsing a printed POST gives the same method, path and body for every split behind the headers |
| Http.PostFaithfulIff | server/main.cpp:372-416 | ... exactly when the path is one non-empty word |
| Http.PostPartReceived | server/main.cpp:401-416 | whatever follows its header block, a POST is dropped exactly when that is too short, and no byte beyond the announced length is looked at |
| Http.PrintedLines | control/http/HttpClient.cpp:47-64 | the lines of the printed requests and the response, written out |
| Http.LengthLineAnyCase | server/main.cpp:383-396 | a length line in letters of any case: no value leaves the length, a number replaces it, anything else has stoul throw |
| Http.OtherLineIgnored | server/main.cpp:383-388 | every other header line leaves the length alone |
| Http.LastLengthWins | server/main.cpp:381-396 | of several length lines the last counts, unless an earlier one has stoul throw |
| Http.HeadersLineByLine | server/main.cpp:382-398 | headers end at the first line that is a carriage return alone, in the server and in the client |
| Http.TwoWordRequest | server/main.cpp:374-398 | of a request line with two words no header is read, so the request has no body |
| Http.OneWordRequest | server/main.cpp:374-398 | of one word alone comes a request with that method and no path |
| Http.NoWordRequest | server/main.cpp:374-398 | of white space alone comes an empty request |
| Http.LeadingSpaceSkipped | server/main.cpp:374-376 | white space in front of the method is skipped |
| Http.VersionIgnored | server/main.cpp:374-376 | the third word of the request line may be anything |
| Http.GetRoundTrip | control/http/HttpClient.cpp:58-64 | a printed GET for one word is all header block, and parsing it gives its method and path and an empty body |
| Http.GetFaithfulIff | server/main.cpp:372-416 | a GET arrives as sent exactly when its path is one non-empty word, wherever it is cut behind its header block |
| Http.GetPathCut | server/main.cpp:374-376 | of a path with white space in it the server sees the first word |
| Http.ResponseReceived | control/http/HttpClient.cpp:15-41 | what the client makes of a response, by split and by how the second read ended |
| Http.ResponseRecoveredIff | server/main.cpp:264-272 | the client recovers the body exactly when it is empty, or part of it came with the headers and no error cut the rest off |
| Http.HeadersBrokenOff | control/http/HttpClient.cpp:20-30 | of a message that breaks off in its headers nothing is left behind them |
| FileTransfer.SanitizeFixes | server/main.cpp:41-61 | sanitising is idempotent, its results are safe or empty, and it fixes exactly the safe names |
| FileTransfer.SanitizeDropsDirectory | server/main.cpp:41-47 | only what follows the last slash of either kind counts |
| FileTransfer.IsSafeNameIff | server/main.cpp:49-58 | which names may be stored, by the codes of their characters |
| FileTransfer.DownloadNameRead | server/main.cpp:506-509 | the name put behind "name=" is read back, whatever it contains |
| FileTransfer.FileServer.HandleRequest | server/main.cpp:506-575 | the upload and download branches compute Serve on the stored files; any other request goes elsewhere |
| FileTransfer.ReceiveDownload | control/core/TaskManager.cpp:312-331 | the client's download computes Downloaded from the two parts of the response and from how the second read ended |
| FileTransfer.UploadServed | control/core/TaskManager.cpp:288-310 | however the request was cut, the client's bytes are stored under the sanitised name, or nothing changes |
| FileTransfer.NoUploadRefused | server/main.cpp:531-545 | a posted body that is no upload is refused and stores nothing |
| FileTransfer.DownloadNameFaithfulIff | server/main.cpp:506-509 | the name that the server looks up is the asked one exactly when that holds no white space |
| FileTransfer.DownloadServed | server/main.cpp:506-531 | however the request was cut, an answer holds what is stored under the name up to its first white space, or says that there is none; a name without any is answered |
| FileTransfer.NoNameRefused | server/main.cpp:506-530 | a download path without "name=" names no file |
| FileTransfer.DownloadRecoveredIff | control/core/TaskManager.cpp:312-331 | the client gets a file's bytes exactly when a body byte came with the reply's headers and no error cut the rest off |
| FileTransfer.UploadThenDownload | control/core/TaskManager.cpp:288-331 | upload stores the bytes and leaves every other file unchanged; download returns them exactly when a body byte came with the reply's headers and no error cut the rest off |
| FileTransfer.TransferTexts | control/core/TaskManager.cpp:288-331 | the two requests with their paths, as the client prints them |
| FileTransfer.OthersElsewhere | server/main.cpp:506-531 | any other request touches no stored file of this model |
| Editor.StepRefinesFlat | control/ui/UI.cpp:841-890 | with a valid cursor every key does to the flat text and offset what its name says, and a save writes that text |
| Editor.RunRefinesFlat | control/ui/UI.cpp:841-890 | a run whose arrows land on lines long enough never throws and is a run of the flat editor |
| Editor.KeyChangesText | control/ui/UI.cpp:841-890 | at any cursor: a key that does not throw does to the text what the flat editor does, and nothing at all behind the line, where backspace only moves the column |
| Editor.StepRefinesText | control/ui/UI.cpp:841-890 | every key at every cursor does to lines and cursor what an editor on the joined text does, throwing when that does |
| Editor.RunRefinesText | control/ui/UI.cpp:841-890 | ... and so does every run, wherever its arrows land, up to its save, quit or throw |
| Editor.ScrollsWhenLeaving | control/ui/UI.cpp:856-863 | only arrows scroll, by one line, and only when the cursor leaves the window |
| Editor.KeyCodes | control/ui/UI.cpp:841-890 | which key codes do what |
| Editor.RunInBounds | control/ui/UI.cpp:841-890 | in every run the row is in range, column and scroll offset are not negative, no line holds a newline |
| Editor.ThrowsIff | control/ui/UI.cpp:864-889 | a key throws exactly when the column exceeds the line (by more than one for backspace), changing nothing |
| Editor.ArrowSafeIff | control/ui/UI.cpp:856-863 | an arrow move leaves every next key safe exactly when it lands on a line at least as long as the column |
| Editor.FourKeysThrow | control/ui/UI.cpp:856-889 | Enter, a letter, up, a letter in a new file throws |
| Editor.BackspaceUndoesPrintable | control/ui/UI.cpp:873-889 | backspace restores lines and cursor after a printed character |
| Editor.BackspaceUndoesEnter | control/ui/UI.cpp:864-885 | backspace restores lines and cursor after Enter |
| Editor.ArrowsKeepCursorVisible | control/ui/UI.cpp:163-165 | arrow keys keep a visible cursor visible and scroll only when they must |
| Editor.OpenOfSaved | control/ui/UI.cpp:788-804 | opening what was saved gives back the same lines |
| Editor.SavedOfOpen | control/ui/UI.cpp:843-851 | saving what was opened adds a final newline exactly when there is none |
| Ui.HandleSafe | control/ui/UI.cpp:694-839 | every key keeps all indices in range and causes only safe actions, whatever the lists are |
| Ui.HandleThrowsIff | control/ui/UI.cpp:694-937 | a key throws exactly when it asks for a refresh that meets a bad reply, or in the editor's bad-column cases |
| Ui.IterateCrashesIff | control/ui/UI.cpp:32-40 | a round of the main loop throws exactly when a reply to its poll is bad or its key throws |
| Ui.RunCrashesIff | control/ui/UI.cpp:32-40 | the program ends in an exception exactly when some round it gets to throws |
| Ui.ReachableSafe | control/ui/UI.cpp:694-937 | in every reachable state the next key is safe: files are touched only under the cursor, on the clipboard or in the editor; no command or query is ever sent, so the task list stays empty and nothing is ever killed |
| Ui.PasteFollowsMark | control/ui/UI.cpp:811-835 | over whole runs: V follows the latest C or X on a file; after C it reads and writes the copy, after X the first V also deletes the file behind that, and later ones do nothing |
| Ui.PasteDeletesIff | control/ui/UI.cpp:811-835 | V deletes a file exactly when the latest mark was an X on it and no V came since |
| Ui.MenuOpens | control/ui/UI.cpp:705-725 | the menu opens the screens in the order of their keys, digits and letters of either case |
| Ui.LeftIff | control/ui/UI.cpp:32-40 | the loop is left exactly with ESC on the main screen behind an answered poll |
| Ui.RoundHandlesKey | control/ui/UI.cpp:32-40 | behind an answered poll a round does nothing more without a key, and otherwise what its key does |
| Ui.StartsOnMain | control/ui/UI.h:14-52 | the state before the first round |
| Ui.EscGoesBack | control/ui/UI.cpp:694-937 | ESC goes back one screen and does nothing else |
| Ui.MainKeys | control/ui/UI.cpp:697-703 | arrows stay in the server list, the space bar flips the flag under the cursor, Enter opens the menu |
| Ui.RefreshIff | control/ui/UI.cpp:694-937 | R asks for a refresh on the main screen and on five panels, and nowhere else does any key |
| Ui.FileKeys | control/ui/UI.cpp:772-809 | what N, E, D and the arrows do in the file list |
| Ui.KillKeys | control/ui/UI.cpp:746-767 | Enter kills the task under the cursor, and the arrows stay in the list of running tasks |
| Ui.RunningInOrder | control/ui/UI.cpp:747-754 | that list has every running task of the server once, in order |
| Ui.PromptShrinks | control/ui/UI.cpp:737-739 | a prompt never grows: only a backspace changes it |
| Ui.PromptsSend | control/ui/UI.cpp:727-740 | what Enter would send from a prompt that held a text |
| Ui.ExecutesOnSelected | control/ui/UI.cpp:892-903 | a command goes to the selected servers up to the first reply without an id |
| Ui.ExecInOrder | control/ui/UI.cpp:892-903 | ... in the order of the servers, once each, and the answered ones start the new tasks |
| Ui.SessionIsEditorRun | control/ui/UI.cpp:841-890 | the keys of an editing session reach the UI as one run of the editor, as long as every poll is answered |
| Ui.SessionWritesFlatText | control/ui/UI.cpp:788-851 | open, edit and save writes what the flat editor makes of the file's text |
| Ui.UI.Run | control/ui/UI.cpp:32-40 | the main loop computes Reach: poll, then key, until ESC or an exception |
| Ui.UI.Round | control/ui/UI.cpp:32-40 | one round computes Iterate on the UI's and the task manager's fields |
| Ui.UI.HandleInput | control/ui/UI.cpp:694-937 | the in-place handler computes Handle on all its fields and the task manager's, exceptions included, and keeps its invariant |
| Ui.UI.OnRefresh | control/core/TaskManager.cpp:105-127 | a refresh key applies the replies up to the bad one and throws there |
| Ui.UI.OnMultiExec | control/ui/UI.cpp:892-903 | the loop over the selected servers sends, records and throws as ExecOnSelected says |
| Ui.UI.OnEditor | control/ui/UI.cpp:841-890 | the editor branch, by insert, erase and joins on the line vector, computes the editor's step |
| Ui.UI.OnKill | control/ui/UI.cpp:746-767 | the kill branch computes HandleKill, with the running tasks collected by its loop |
| Ui.UI.OnFiles | control/ui/UI.cpp:772-839 | the file-list branch computes HandleFiles |
| Worker.ChunksKeepContent | server/main.cpp:232-235 | cutting a pipe's content by fgets loses and adds nothing |
| Worker.ChunkIs | server/main.cpp:232-235 | a chunk ends with a newline, at 127 characters or with the pipe, and holds no other newline |
| Worker.CdGoes | server/main.cpp:183-199 | where `cd` goes, whatever white space stands around its argument |
| Worker.CharacterIff | server/main.cpp:239-249 | the UTF-8 test accepts exactly the encodings of character numbers by section 3 of RFC 3629 |
| Worker.AllSent | server/main.cpp:234-250 | if every chunk is UTF-8, everything is sent and stored |
| Worker.SentUpTo | server/main.cpp:234-250 | otherwise the chunks before the first that is not are sent, and stored together with that one |
| Worker.SentIsUtf8 | server/main.cpp:234-250 | only output that is UTF-8 as a whole can be sent to its end |
| Worker.AsciiSendable | server/main.cpp:234-250 | ASCII output always can |
| Worker.CutInsideCharacter | server/main.cpp:233-249 | a two-byte character behind 126 ASCII characters is cut, and its first half cannot be sent, though the output is UTF-8 |
| Worker.RunTask | server/main.cpp:181-262 | a worker gets to its end exactly when every chunk is UTF-8, with its full trace broadcast, all output stored and running false; else the trace up to the bad chunk, and running still true |
| Worker.StreamPipe | server/main.cpp:232-250 | the read loop stores and broadcasts chunk by chunk, up to the first that cannot be dumped |
| TaskServer.StepKeepsInv | server/main.cpp:107-262 | every step of every thread keeps the server's invariant and never restarts, forgets or renames a task: command, launch and directories stay |
| TaskServer.RunKeepsInv | server/main.cpp:107-262 | ... hence every interleaving does |
| TaskServer.NextIdFresh | server/main.cpp:418-430 | with atomic increments the id of a new task was never used |
| TaskServer.TaskRunsItsCommand | server/main.cpp:418-430 | in every interleaving the m-th accepted command has id m, and that id stands for this command ever after, its task inserted yet or not |
| TaskServer.TaskRunsAsLaunched | server/main.cpp:213-222 | a task stays with the process that was launched for it |
| TaskServer.WorkerFinishes | server/main.cpp:181-262 | from any state on a launched task can run to its end, with its full trace broadcast and all output stored |
| TaskServer.CommandCanRun | server/main.cpp:418-430 | from any state on a new command can be accepted, inserted, launched in any way and run to its end |
| TaskServer.TraceIsPrefix | server/main.cpp:181-262 | in every interleaving a task's broadcasts are a prefix of the one legal trace its command and process determine: directory, chunks and exit status included |
| TaskServer.CompletionIsLast | server/main.cpp:188-262 | a completion is a task's last message, sent when it is already stopped and its log complete |
| TaskServer.StreamedAndStoredAgree | server/main.cpp:232-250 | what was streamed is a prefix of the stored output, behind by the one chunk in hand; both are prefixes of what the process writes |
| TaskServer.StoppedMeansComplete | server/main.cpp:252-253 | a task that is not running has stored everything its process wrote |
| TaskServer.SubscriberSeesSegment | server/main.cpp:107-121 | a connection whose sends never fail sees an unbroken in-order part of every task's trace |
| TaskServer.SubscriberHears | server/main.cpp:107-121 | from its opening to its closing a connection gets every broadcast whose send does not fail, and nothing else; it counts as failed exactly when one did |
| TaskServer.CanConnect | server/main.cpp:1388-1398 | at any time a new connection can be opened, and an open one closed |
| TaskServer.NoticeSaid | server/main.cpp:110-121 | a message of no task is broadcast as it is and changes no task |
| CounterRace.IdsUniqueIff | server/main.cpp:421-421 | ids are unique exactly when no two increments of the unprotected counter overlap |
| CounterRace.UndisturbedGetsNext | server/main.cpp:421-421 | however other increments overlap, one that runs undisturbed after a write hands out the next id |
| TaskManager.TaskManager.ToggleServer | control/core/TaskManager.cpp:15-18 | flips the flag of an existing index and keeps one flag per server |
| TaskManager.TaskManager.ExecOnServer | control/core/TaskManager.cpp:27-52 | one request; one RUNNING task if and only if the reply carries an id |
| TaskManager.TaskManager.RunJointCommand | control/core/TaskManager.cpp:61-79 | sends the plan up to the first reply that throws and records exactly the answered requests |
| TaskManager.WorkerIdIsRank | control/core/TaskManager.cpp:66-78 | the j-th request goes to the j-th selected server, in index order, with WORKER_ID j out of TOTAL_WORKERS |
| TaskManager.WorkerIdsDistinct | control/core/TaskManager.cpp:70-76 | different ranks print different WORKER_IDs |
| TaskManager.SelectedIsPlanned | control/core/TaskManager.cpp:66-78 | every selected server gets exactly one request, the one at its rank |
| TaskManager.JointCommandStartsOneTaskEach | control/core/TaskManager.cpp:61-79 | if all selected servers reply: k requests, TOTAL_WORKERS = k, and exactly those k RUNNING tasks in that order |
| TaskManager.TogglesFlip | control/core/TaskManager.cpp:15-18 | over any toggles there is one flag per server, flipped once per toggle of its index |
| TaskManager.TaskManager.RefreshTasks | control/core/TaskManager.cpp:105-127 | the three nested loops compute RefreshedAll; a malformed reply or row throws and keeps what came before, earlier rows of the same reply included |
| TaskManager.RefreshCopiesReports | control/core/TaskManager.cpp:105-127 | with distinct names a refresh gives each task of a server it gets to that server's reported state, be it in front of a bad row, and changes no id, server, command or order |
| TaskManager.LastRowWins | control/core/TaskManager.cpp:114-125 | of several rows for a task the last one counts |
| TaskManager.RefreshFaithfulIff | control/core/TaskManager.cpp:118-122 | ... exactly when no two servers have the same name |
| TaskReplies.ReplyReadIff | control/core/TaskManager.cpp:107-116 | wherever it is cut or breaks off, a printed reply is read as its rows, or as no JSON; as its rows exactly when all of it gets through, its first body byte with the headers |
| TaskReplies.RefreshCompletesIff | control/core/TaskManager.cpp:105-127 | a refresh completes exactly when every server is unreachable or its reply gets through |
| TaskReplies.RefreshShowsPrintedRows | control/core/TaskManager.cpp:105-127 | with distinct names and every reply through, each task takes the state its own server printed, and keeps its own if that was out of reach |
| TaskReplies.CutAtBlankLineThrows | control/http/HttpClient.cpp:15-41 | a reply cut right behind its headers is read as no JSON |
| TaskReplies.RefreshKeyThrowsIff | control/ui/UI.cpp:702-702 | the refresh key throws exactly when some reply does not get through |
| TaskReplies.RoundCrashesIff | control/ui/UI.cpp:32-40 | a round ends the program exactly when a reply to its poll or to its key is lost, or in the editor's bad-column cases |
| TaskReplies.IdleRunsIff | control/ui/UI.cpp:32-37 | without keys the main loop goes on exactly as long as every reply to its polls gets through |
| TaskProtocol.StepKeepsInv | control/core/TaskManager.cpp:27-127 | every step of the client, its messages and all servers' threads keeps what the client believes true |
| TaskProtocol.AppliedTask | control/core/TaskManager.cpp:105-127 | a complete reply sets exactly its own server's tasks to the states in it, reviving none |
| TaskProtocol.FinishedForever | control/core/TaskManager.cpp:105-127 | from any reachable world on, a task keeps its identity and, once FINISHED, stays FINISHED |
| TaskProtocol.FinishedMeansStopped | server/main.cpp:418-439 | in every interleaving a task shown as FINISHED has running = false on its own server |
| TaskProtocol.FinishedMeansComplete | server/main.cpp:440-448 | ... and that server's log of it is complete |
| TaskProtocol.ClientCommandIsServers | control/core/TaskManager.cpp:27-52 | in every interleaving a task of the client has the command of its record on its own server |
| TaskProtocol.TasksAreSends | control/core/TaskManager.cpp:27-52 | the client's tasks are the commands it sent, in order, on the servers it sent them to |
| TaskProtocol.RefreshTakesTurns | control/core/TaskManager.cpp:105-127 | whatever the servers do meanwhile, a refresh can end only when each server in turn has answered or was out of reach |
| TaskProtocol.UnreachedChangeNothing | control/http/HttpClient.cpp:42-44 | any server may be out of reach; a refresh that reaches none ends with nothing changed |
| TaskProtocol.QuietRefreshShowsTruth | control/core/TaskManager.cpp:105-127 | after a refresh that no server's thread interrupts the client shows exactly what runs |
| TaskProtocol.TruthCanBeShown | control/core/TaskManager.cpp:105-127 | an idle client can always learn exactly what runs: a refresh under way is never stuck |
| TaskProtocol.CommandCanBeAnswered | control/core/TaskManager.cpp:27-52 | a command can always be accepted, inserted and answered, and then the client holds its task as RUNNING |
| Discovery.Load | control/config/Config.cpp:46-114 | the receive loop computes Loaded: one entry per address by first answer, or the fallback |
| Discovery.EntriesDistinct | control/config/Config.cpp:57-60 | no address has two entries |
| Discovery.EntriesOrdered | control/config/Config.cpp:46-83 | entries stand in the order in which their addresses first answered |
| Discovery.AnswerHasEntry | control/config/Config.cpp:62-80 | the entry holds, field by field, what the address's first answer says, or the default for what it leaves out |
| Discovery.ListedIff | control/config/Config.cpp:57-80 | an answering address is listed exactly when its first answer has no ill-typed field |
| Discovery.EntrySource | control/config/Config.cpp:50-83 | every entry comes, field by field, from the well-typed first answer of its address |
| Discovery.FallbackIff | control/config/Config.cpp:99-112 | the fallback, written out, stands in exactly when no address is listed |
| Discovery.BadFieldLosesServer | control/config/Config.cpp:59-68 | one bad field, then a perfect answer: the server stays unlisted |
| CpuMonitor.Monitor | server/main.cpp:1343-1385 | the loop raises the alerts of the specification |
| CpuMonitor.AlertFromTick | server/main.cpp:1366-1379 | every alert is raised by a tick above 90%, at its time, in order |
| CpuMonitor.AlertsApart | server/main.cpp:1369-1379 | alerts are pairwise more than 60 s apart, whatever the clock does |
| CpuMonitor.AlertsInWindow | server/main.cpp:1369-1379 | a window of T ms holds at most T/60000 + 1 alerts |
| CpuMonitor.EveryHighTickAnnounced | server/main.cpp:1366-1379 | with a clock that never goes back and is past its first minute, a tick above 90% is an alert or lies within 60 s after one |
| CpuMonitor.SetBackSilences | server/main.cpp:1366-1379 | no alert is raised exactly as long as no high tick is more than 60 s past the last alert time |
| Handler.OpKeepsInv | include/asio/any_completion_handler.hpp:639-756 | every operation keeps one owner per implementation, matching function tables and the order of events |
| Handler.EachImplOnce | include/asio/any_completion_handler.hpp:184-197 | over any operations an implementation has at most one owner, of its type, is invoked at most once and destroyed once if orphaned |
| Handler.NothingLeaks | include/asio/any_completion_handler.hpp:699-703 | when no wrapper remains every implementation has been destroyed exactly once |
| Handler.InvokedIff | include/asio/any_completion_handler.hpp:184-197 | over any operations a handler has been invoked, once, exactly if a wrapper was called while it owned it |
| Handler.MoveHandsOver | include/asio/any_completion_handler.hpp:671-689 | moving hands over what the source owns, empties it, and destroys what the target owned |
| Handler.SelfMoveKeeps | include/asio/any_completion_handler.hpp:683-689 | assigning a wrapper to itself changes nothing |
| Handler.SwapExchanges | include/asio/any_completion_handler.hpp:718-722 | swapping exchanges, destroys nothing, and done twice is nothing |
| Handler.ConstructOwns | include/asio/any_completion_handler.hpp:639-665 | a new wrapper owns its new implementation, or nothing |
| Handler.EmptiedBy | include/asio/any_completion_handler.hpp:692-756 | what resetting, calling and destroying leave of a wrapper, and what happens to its implementation |
| Handler.Handlers.MoveFrom | include/asio/any_completion_handler.hpp:671-677 | both pointers move and the source is empty |
| Handler.Handlers.Assign | include/asio/any_completion_handler.hpp:683-689 | move into a temporary, swap, drop is move-assignment, and nothing at all on itself |
| Handler.Handlers.AssignNull | include/asio/any_completion_handler.hpp:692-696 | the target is emptied and what it owned destroyed |
| Handler.Handlers.Invoke | include/asio/any_completion_handler.hpp:746-756 | throws on empty; otherwise lets go, frees the implementation, then runs the handler |
| Bits.MaskClears | include/asio/detail/memory.hpp:83-83 | in n bits `x & -2^k` is the multiple of 2^k at or just below x |
| Allocator.AlignUpFirst | include/asio/detail/memory.hpp:82-84 | masking gives the first aligned address from the base on, as long as that address exists |
| Allocator.FoundIff | include/asio/detail/memory.hpp:76-90 | align() succeeds exactly when its room does not wrap or, in the fallback, when its own sum wraps as well |
| Allocator.BlockInsideIff | include/asio/any_completion_handler.hpp:146-157 | for any sizes, a returned block lies with its footer in its raw bytes exactly when the size of the request does not wrap |
| Allocator.FooterInsideIff | include/asio/any_completion_handler.hpp:146-157 | its footer alone does exactly then too, but for the case that the fallback's sum wraps |
| Allocator.WrappedRequest | include/asio/any_completion_handler.hpp:146-157 | 2^64 - 8 bytes at alignment 1: no bytes are requested, the pointer is granted, the footer lies in front of it |
| Allocator.StepKeepsInvIff | include/asio/any_completion_handler.hpp:137-182 | a step leaves all blocks sound exactly when it is not a granted request whose size wraps |
| Allocator.RunSoundIff | include/asio/any_completion_handler.hpp:137-182 | over any run of any requests all blocks stay sound exactly when no granted request wraps |
| Allocator.EveryBlockSound | include/asio/any_completion_handler.hpp:137-182 | in every such run each live block is aligned, lies with its footer in its raw bytes, and gives back exactly the base and size obtained |
| Allocator.BlocksDisjoint | include/asio/any_completion_handler.hpp:137-162 | in every such run user bytes and footers of different blocks are disjoint |
| Allocator.UserBytesKept | include/asio/any_completion_handler.hpp:137-182 | in every such run a user's byte keeps its value whatever else is allocated, freed or written |
| Allocator.UserReadsBack | include/asio/any_completion_handler.hpp:137-182 | so whatever a user writes into its block it reads back |
| Allocator.LiveIff | include/asio/any_completion_handler.hpp:137-182 | in any run a block is live exactly when a granted request handed it out and no deallocation behind that gave it back |
| Allocator.DeallocateUndoesAllocate | include/asio/any_completion_handler.hpp:137-182 | giving a block back at once undoes its request: the same bytes can be handed out again |
| Allocator.NoByteSpare | include/asio/any_completion_handler.hpp:146-150 | right behind a multiple of the alignment the footer ends with the raw bytes: none of them is spare |
| Allocator.HandlerAllocator.Align | include/asio/detail/memory.hpp:76-90 | computes the aligned pointer and whether there is room, in size_t |
| Allocator.HandlerAllocator.AllocateBlock | include/asio/any_completion_handler.hpp:137-162 | for any request: bad_alloc and nothing, or the block with its distance written where size_t arithmetic puts it |
| Allocator.HandlerAllocator.DeallocateBlock | include/asio/any_completion_handler.hpp:164-182 | nothing for a null pointer; else hands back the base and the size that were obtained, read from the footer |

## Left out

- Sockets, UDP, popen, detached threads, the file system and the clock: they are inputs, and storage is a map from names to bytes (no directories, no path resolution).
- JSON and WebSocket libraries: messages are datatypes; `FileTransfer` assumes only that parsing undoes dumping and that neither the empty text nor a dumped object that breaks off parses.
- Drawing, the hard-coded panels, `getAIResponse`, and the mode `FILE_OPERATIONS` beyond its missing branch.
- Shell-wrapping endpoints (system, docker, services, backup, scripts), `/kill`, and the listing, deleting, renaming, reading and writing of files on the server side.
- FileTransfer.FileServer.HandleRequest: every request but upload and download is reported as going elsewhere, with nothing said of its effect; `auto_install`, which the client never sends, is left out; error texts are shortened.
- `runCommand`, `getLogs`, `killTask`, statistics and the other one-request calls of the client.
- `server/main_modular.cpp` and the rest of `include/`.
- TaskServer.NextIdFresh: takes `++task_counter` as one step; what happens otherwise is `CounterRace.IdsUniqueIff`. Overflow of the int is not modelled.
- TaskServer.StreamedAndStoredAgree: appending a chunk to the output and reading it for `/logs` are atomic steps; the source does not lock them against each other.
- TaskProtocol.FinishedMeansStopped: one client; other clients appear as commands accepted by the servers, and servers do not restart. A lost or malformed reply ends the client and is not a step here.
- Worker.ChunksKeepContent: the process writes no NUL characters, at which the source would cut a chunk.
- Worker.RunTask: the command, which came out of JSON, and `$HOME` are UTF-8, so that only output chunks can fail to be dumped; the shell line handed to popen is not built, only what comes of it is given.
- TaskServer.TraceIsPrefix: the step system goes on where a chunk that is not UTF-8 ends the server; it has every run of the source up to there, and more.
- Http.HandleClient: white space and letter case are those of the "C" locale, and the buffer limit of read_until is not modelled.
- Ui.ReachableSafe: the list cursors are unbounded integers; with an empty list the source increments an int without limit.
- Ui.RunCrashesIff: drawing, which comes between poll and key, and the panels' performance history, which cannot throw.
- TaskReplies.IdleRunsIff: the JSON library is a parameter, of which it is assumed that parsing undoes dumping and that neither the empty text nor an array that breaks off parses.
- CpuMonitor.Monitor: integer milliseconds instead of doubles.
- Discovery.Load: the three timed rounds are one sequence of receipts, which an exception may end anywhere.
- Handler.EachImplOnce: an invocation is one event; a handler that touches wrappers while it is being invoked does so in later steps.
- Allocator.HandlerAllocator.AllocateBlock: what the handler's own allocator throws, and that the raw bytes of a request that ends in bad_alloc are never given back.
