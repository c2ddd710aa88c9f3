# A verified model of four concurrent C programs

This project models the parts of a collection of systems programs that hold state, and proves what they keep:

- **The bank server** (`exam/bankServer.c`): accounts with a slot table per account, changed in place (`Ledger`, `Bank`); the text log they are printed to and rebuilt from (`BankLog`, `BankLogRoundTrip`); sequential lives with restarts (`BankRestarts`); the one shared slot through which any number of teller processes hand over their transactions (`TellerSlot`, `TellerRounds`); what its answers mean (`BankAnswers`); whole lives of such batches and restarts (`BankLives`); lives on which the promises end (`BankLimits`); decimal text (`Decimal`).
- **The log search** (`hw4/`): the ring buffer (`Ring`, `Buffer`) and the manager, the workers, the creating main thread and the interrupt as a state machine at the granularity of critical sections, with explicit sleeping states (`LogSearch`, `LogSearchProof`, `LogSearchResults`, `LogSearchDeadlock`, `LogSearchStop`).
- **The chat server** (`final/server/chatserver.c`): client and room tables in place (`ChatRooms`, `ChatRoomsProof`), the effect of each command (`ChatEffects`), user names (`ChatUserNames`), runs on which the promises end (`ChatLimits`), the file queue (`FileQueue`), the threads that share it (`TransferThreads`), and the order of its three mutexes (`LockOrder`).
- **The satellite dispatcher** (`hw3/main.c`): shuffle and heap in place (`SatelliteQueue`), engineers and satellites as a state machine (`Dispatch`, `DispatchHandling`).

Code that changes memory is a class or a method over arrays, proved equal to a function on values; what the programs promise is proved about those functions, for all inputs, all runs and all interleavings. A schedule is any sequence of actors; an actor that cannot move leaves the state as it is, so a theorem about every schedule is a theorem about every interleaving.

`dafny verify dfyconfig.toml` checks everything.

## Findings

Where the code keeps a property only sometimes, the exact condition is proved:

- The bank log can be read back unchanged if and only if every account's line has at most 256 characters (`BankLogRoundTrip.RoundTripIff`; `exam/bankServer.c:553`). The reader's buffer holds 255, but the one character lost from a line of 256 is a digit of a balance that is never read. Every longer line that can be printed becomes two accounts (`BankLogRoundTrip.LogCounted`). The bank gets there: a customer who pays in 1 at a time survives a restart up to 61 deposits, is split in two up to 124, and is lost after that (`BankLimits.SaverReloaded`).
- A restart keeps all accounts if and only if, besides, there are at most 1024 of them (`BankRestarts.SurvivesIff`). With more, the parser goes on in an array of its own, while the server keeps the old pointer with the larger count (`BankLog.ParseClientsLog`; `exam/bankServer.c:525-528`, `exam/bankServer.c:231`). 1025 requests for a new account are enough (`BankLimits.ManyAccounts`).
- When one account's line does not fit the printing buffer, the file has already been emptied and the writing stops there: that account and all later ones are gone at the next start (`BankLogRoundTrip.CutLogLoses`; `exam/bankServer.c:394`, `exam/bankServer.c:430`).
- `update_client` keeps an account's record sound exactly when the request is turned down or a slot is free and the operation is a deposit or a withdrawal, or moves nothing (`Ledger.UpdateSoundIff`). When all 1024 slots are used, the balance still moves but nothing is recorded; the 1025th deposit to an account does that, fewer than 1024 requests that name it after its opening never do (`BankLimits.FullTableBreaks`, `Ledger.FewRequestsKeepInv`; `exam/bankServer.c:473`). An account that has outgrown its table is lost at the next restart (`BankLimits.OutgrownIsLost`).
- A deposit overdraws exactly when its amount is negative and exceeds the balance; a withdrawal never does (`Ledger.UpdateOverdrawnIff`, `Ledger.NegativeDepositOverdraws`; `exam/bankServer.c:464`).
- Room names of 32 characters are let through but stored as 31; joining keeps the tables consistent exactly when the stored form is no existing room's name, or the room table is full (`ChatRoomsProof.JoinIff`, `ChatLimits.TwinRoomsAreReached`; `final/server/chatserver.c:340`).
- User names are checked in full and stored as 15 characters: two users can end up with one name, and do exactly when a name is given whose stored form another active user has (`ChatUserNames.RenameIff`, `ChatLimits.ClashIsReached`; `final/server/chatserver.c:375-382`).
- The log search has one deadlock. If a worker cannot be created while the manager is blocked on a full buffer, no stop has been asked for and no worker is inside the buffer's code, the manager is never woken; in every other case a failed creation lets the run end (`LogSearchDeadlock.StrandsIff`, `LogSearchDeadlock.FailedCreationStrands`; `hw4/210104004072_main.c:165`, which wakes only workers).
- `intToStr` writes the empty string for 0 (`Decimal.IntToStr`; `exam/bankServer.c:666`).

## Assumptions

- C's `int` is modelled as an unbounded integer. Balances, amounts and counts are taken to fit; beyond that the C code has no defined behaviour.
- A freshly allocated transaction table is zeroed and its count is 0, which `update_client` relies on.
- Allocation of accounts succeeds.
- A log header is any comment line of at most 255 characters that contains "Log file"; the time in it plays no part.
- Sockets handed out by `accept` are not those of active clients.

## Model

| member | source | states |
|---|---|---|
| Decimal.AtoiOfPrint | exam/bankServer.c:587-589 | reading a printed number back with `atoi` gives the number, for every integer |
| Decimal.AtoiReads | exam/bankServer.c:587 | `atoi` skips blanks, takes either sign and stops behind the digits |
| Decimal.PrintInjective | exam/bankServer.c:508 | different numbers are printed differently, so numbered ids differ |
| Decimal.IntToStr | exam/bankServer.c:661-679 | the digit loop and in-place reversal leave the canonical signed decimal and a NUL, the empty string for 0, and touch nothing behind it |
| Ledger.UpdateSoundIff | exam/bankServer.c:458-488 | the balance equals recorded deposits minus withdrawals and the used slots are the first ones, exactly under the stated condition on the request |
| Ledger.UpdateOverdrawnIff | exam/bankServer.c:463-472 | no prefix of a history is negative after a request, except exactly after an excessive negative deposit |
| Ledger.FirstEmptyIsCount | exam/bankServer.c:473-480 | the search for an empty slot stops at index `transaction_count` |
| Ledger.FindIsCanonical | exam/bankServer.c:490-520 | lookup succeeds exactly on the canonical id of an existing account; "N" always means a new one |
| Ledger.ServeRefines | exam/bankServer.c:350-368 | serving a request on the slot tables is serving it on a list of histories, with the same answer |
| Ledger.RunInvIff | exam/bankServer.c:346-377 | after any requests from an empty bank the ledger invariant holds exactly if no history outgrew its table |
| Ledger.RunNeverOverdrawn | exam/bankServer.c:458-488 | with non-negative amounts, no account was ever overdrawn at any point of its history |
| Ledger.FewRequestsKeepInv | exam/bankServer.c:473-482 | deposits and withdrawals of which fewer than 1024 name any one account keep the ledger invariant |
| Ledger.NegativeDepositOverdraws | exam/bankServer.c:463-465 | one deposit of a negative amount to a new account overdraws it |
| Ledger.RejectedChangesNothing | exam/bankServer.c:466-518 | a rejected request changes no existing account, and at most adds an empty one |
| BankAnswers.AnswerMeans | exam/bankServer.c:350-368 | failure exactly for an id that is not found; otherwise the answer bears the account's id, and is refusal, deletion or success exactly as the balances before and after say |
| BankAnswers.ServedRightly | exam/bankServer.c:350-368 | every deposit or withdrawal gets the right answer for the accounts as they are, changes exactly the named account's balance by its amount and adds exactly its entry |
| BankAnswers.RunRightly | exam/bankServer.c:346-377 | in a run, every request is answered rightly for the accounts as the earlier requests have left them |
| BankAnswers.TellersToldRightly | exam/bankServer.c:346-377 | every teller of a finished batch has the right answer to its own transaction, at its place in the order of serving |
| Bank.Server.constructor | exam/bankServer.c:211-213 | the bank starts empty |
| Bank.Server.FromLog | exam/bankServer.c:211-235 | the table is as the log parses exactly if there are at most 1024 accounts; the count is the log's in any case |
| Bank.Server.SaveLog | exam/bankServer.c:708-718 | the file holds the log of the table, or what was written before a line that does not fit; the table stays as it is |
| Bank.Server.FindClientIndex | exam/bankServer.c:647-654 | index of the first account with the id, or -1 |
| Bank.Server.GetOrCreateClient | exam/bankServer.c:490-520 | in-place lookup or creation, with doubling, equals the specification |
| Bank.Server.UpdateClient | exam/bankServer.c:458-488 | in-place update of one account equals the specification and leaves the others alone |
| Bank.Server.ServeSlot | exam/bankServer.c:350-368 | one turn of the server equals the specification |
| BankLog.AppendEntries | exam/bankServer.c:425-432 | appends the history, failing exactly when it does not fit 512 characters, and before it runs past the end of the table |
| BankLog.FormatLine | exam/bankServer.c:413-437 | produces the account's line, failing exactly when it does not fit |
| BankLog.WriteClientLines | exam/bankServer.c:412-440 | writes every line in order up to the first that does not fit, and fails exactly if there is one |
| BankLog.UpdateLogFile | exam/bankServer.c:392-447 | the file holds header, all lines and footer, or after a failure the header and the lines before the first that does not fit |
| BankLog.OutgrownDoesNotFit | exam/bankServer.c:425-432 | an account whose count has reached the end of its table cannot be printed |
| BankLog.WrittenIs | exam/bankServer.c:412-440 | the writing stops exactly at the first line that does not fit |
| BankLog.ReadEntries | exam/bankServer.c:575-603 | the token loop yields the specified operations and their balance |
| BankLog.ReadLine | exam/bankServer.c:553-603 | a line yields its account or is skipped as comment or blank |
| BankLog.LoadClient | exam/bankServer.c:522-540 | puts an account behind the others, in an array of twice the size when this one is full |
| BankLog.ParseClientsLog | exam/bankServer.c:542-612 | the character loop counts the accounts of the log, and leaves them in the caller's table, in order, exactly if it has room for them |
| BankLogRoundTrip.AccountInLine | exam/bankServer.c:553-603 | a printed line, marked or not, whole or without the last digit, gives the account back |
| BankLogRoundTrip.ShortLine | exam/bankServer.c:553-603 | a line of up to 256 characters gives exactly its account |
| BankLogRoundTrip.LongLine | exam/bankServer.c:553-603 | a longer line that can be printed is read as two accounts |
| BankLogRoundTrip.LogCounted | exam/bankServer.c:542-612 | reading a whole log gives one account too many for each line of more than 256 characters |
| BankLogRoundTrip.RoundTripIff | exam/bankServer.c:542-612 | parsing what was printed gives the same accounts in order if and only if all lines have at most 256 characters |
| BankLogRoundTrip.CutLogLoses | exam/bankServer.c:392-440 | after a failed write the account whose line does not fit and all later ones are gone |
| BankLogRoundTrip.FullLineLooksLike | exam/bankServer.c:413-437 | the format of a line with money, letter by letter |
| BankLogRoundTrip.EmptyLineLooksLike | exam/bankServer.c:417-421 | an empty account's line is its id and 0 behind a mark |
| BankLogRoundTrip.LogLooksLike | exam/bankServer.c:408-446 | header, lines and last line of a log |
| BankLogRoundTrip.EntriesRule | exam/bankServer.c:576-593 | what the reader makes of each kind of token where an operation should be |
| BankLogRoundTrip.SkippedLines | exam/bankServer.c:558-566 | blank lines, header and last line hold no account |
| BankRestarts.ReloadKeeps | exam/bankServer.c:392-612 | with lines of at most 256 characters the log has all accounts unchanged, and the table of a new server holds them exactly if they are at most 1024 |
| BankRestarts.SurvivesIff | exam/bankServer.c:211-612 | a save and a restart keep the invariant and every account exactly if no line is too long and there are at most 1024 accounts |
| BankRestarts.RestartsInvisible | exam/bankServer.c:211-235 | with any number of restarts, each at a moment at which all accounts survive it, accounts and all answers are those of one server that never stopped |
| BankRestarts.NewIdNeverUsed | exam/bankServer.c:490-540 | account j always has id j+1, and "N" yields an id no account ever had, across such restarts |
| TellerSlot.NeverOverwritten | exam/bankServer.c:69-84 | a full slot holds the own job of a teller not yet served, until the server serves exactly that teller |
| TellerSlot.ExecuteKeepsInv | exam/bankServer.c:69-93 | every interleaving keeps mutual exclusion, the slot protocol and the books |
| TellerSlot.Serializable | exam/bankServer.c:346-377 | when the batch loop ends every teller was served once, the ledger is the fold in slot order, each answer is the one at its place, the server is outside and slot and semaphore are free for the next batch |
| TellerSlot.WorkNeverGrows | exam/bankServer.c:346-377 | each posting, serving and answer takes one unit off a measure nothing adds to |
| TellerSlot.SomeoneHelps | exam/bankServer.c:69-93 | in every unfinished reachable state some process has a step that brings the end nearer |
| TellerSlot.NeverStuck | exam/bankServer.c:346-386 | from every reachable state the batch can be brought to its end |
| TellerRounds.RoundWorks | exam/bankServer.c:70-88 | in any stretch of a run in which the server and every teller without an answer look once, the work falls, unless none is left |
| TellerRounds.ThreeRoundsEach | exam/bankServer.c:69-377 | so after three such rounds for each teller all have been served and have their answers |
| BankLives.LifeIsSequential | exam/bankServer.c:189-388 | however many batches are interleaved and wherever the bank is restarted, there is a sequential story with the same accounts: batch after batch, the jobs of each in some order, every teller's answer the one at its place; slot and semaphore are free after every batch |
| BankLives.ServedIsPermutation | exam/bankServer.c:346-377 | the jobs served in a batch are the jobs of the batch, in some order |
| BankLives.StoryHasAllJobs | exam/bankServer.c:241-388 | no job is lost, made up or done twice over a whole life |
| BankLives.StoryOfBatches | exam/bankServer.c:241-388 | without restarts, accounts and answers are those of one run of all jobs, whatever their operations and amounts |
| BankLives.LifeAsIfNeverStopped | exam/bankServer.c:189-388 | concurrency and restarts together cannot be told apart from one sequential server that never stops |
| BankLives.LifeKeepsLedger | exam/bankServer.c:189-388 | so the concurrent, restarted bank keeps the ledger invariant and never overdraws an account |
| BankLimits.FullTableBreaks | exam/bankServer.c:473-487 | the 1025th deposit is answered and moves the balance without leaving a record |
| BankLimits.OutgrownIsLost | exam/bankServer.c:392-612 | an account that has outgrown its table cannot be printed, and nothing is left of it after a restart |
| BankLimits.SaverReloaded | exam/bankServer.c:392-612 | for every number of deposits of 1, whether the account survives a restart, is split in two, or is lost |
| BankLimits.ManyAccounts | exam/bankServer.c:522-612 | any number of accounts can be opened without leaving the invariant; they survive a restart exactly if they are at most 1024 |
| Ring.Push | hw4/buffer.c:48-50 | writing at the end of the ring appends to the queue, for every size |
| Ring.Pop | hw4/buffer.c:71-73 | moving the start removes the first element of the queue |
| Buffer.SharedBuffer.constructor | hw4/buffer.c:10-18 | an empty queue of the given size |
| Buffer.SharedBuffer.AddLine | hw4/buffer.c:33-53 | one pass of adding refines the queue: waits, drops or stores exactly when it should |
| Buffer.SharedBuffer.GetLine | hw4/buffer.c:55-85 | one pass of getting refines the queue: waits, gives up or takes the first line |
| Buffer.AddOutcomes | hw4/buffer.c:36-46 | a line gets in exactly while nobody has asked to stop and there is room; the manager waits exactly for room |
| Buffer.GetOutcomes | hw4/buffer.c:59-73 | a line is taken exactly if one is there, the first; a worker waits exactly while more may come |
| Buffer.SharedBuffer.SetDone | hw4/210104004072_main.c:59-60 | sets the flag and nothing else |
| Buffer.SharedBuffer.Destroy | hw4/buffer.c:20-31 | frees the remaining lines first to last |
| LogSearchProof.ExecuteKeeps | hw4/210104004072_main.c:22-92 | every interleaving, with stops, failed creations and spurious wake-ups, keeps the invariant: lines conserved in order, no lost wake-up, counts right |
| LogSearchResults.AddUp | hw4/210104004072_main.c:193-197 | adding up per-worker matches counts the matching lines delivered |
| CStrings.ContainsIff | hw4/210104004072_main.c:81 | the search finds the term exactly if it stands somewhere in the line |
| LogSearchResults.HitsAre | hw4/210104004072_main.c:81-83 | the hits are as many as the lines in which the term stands |
| LogSearchResults.Lossless | hw4/210104004072_main.c:41-198 | without a stop, at the end each input line was delivered once, in order, and the total is the number of lines in which the term stands |
| LogSearchResults.ConservedUnderStop | hw4/210104004072_main.c:48-52 | lines handed over are those delivered, those left to free, and at most one more, in order |
| LogSearchStop.NothingEntersAfterStop | hw4/210104004072_main.c:48-52 | once the stop flag is set, over every continuation no line is handed over any more and none gets into the buffer |
| LogSearchResults.StuckIff | hw4/210104004072_main.c:158-187 | the exact set of reachable states in which nothing moves: finished runs, and one deadlock |
| LogSearchResults.NoDeadlock | hw4/buffer.c:33-85 | without a failed creation nothing is stuck before all have exited, stopped or not |
| LogSearchDeadlock.StrandsIff | hw4/210104004072_main.c:158-170 | when a worker cannot be created, the run can never end, short of a spurious wake-up, exactly if the manager is blocked, no stop was asked for and no worker is inside the buffer's code |
| LogSearchDeadlock.OtherwiseEnds | hw4/210104004072_main.c:158-187 | in every other case the run never stands still before all its threads have left |
| LogSearchDeadlock.FailedCreationStrands | hw4/210104004072_main.c:159-168 | that deadlock is reachable |
| LogSearchResults.MeasureDecreases | hw4/buffer.c:33-85 | every step but a spurious wake-up lowers a measure |
| LogSearchResults.RunsEnd | hw4/210104004072_main.c:41-187 | so no run is longer than a bound given by input and workers |
| ChatRooms.Server.constructor | final/server/chatserver.c:102-118 | empty tables |
| ChatRooms.Server.FindRoomIndex | final/server/chatserver.c:702-708 | index of the first room with the name, or -1 |
| ChatRooms.Server.FindOrCreateRoom | final/server/chatserver.c:771-795 | in-place lookup or creation equals the specification |
| ChatRooms.Server.CloseGap | final/server/chatserver.c:811-825 | the shifting loop removes one member and keeps the order of the others |
| ChatRooms.Server.RemoveClientFromRoom | final/server/chatserver.c:797-832 | in-place removal equals the specification |
| ChatRooms.Server.AddClientToRoom | final/server/chatserver.c:834-851 | in-place adding equals the specification |
| ChatRooms.Server.JoinRoom | final/server/chatserver.c:397-432 | `/join` equals the specification |
| ChatRooms.Server.LeaveCommand | final/server/chatserver.c:473-492 | `/leave` equals the specification |
| ChatRooms.Server.FindClientByUsername | final/server/chatserver.c:760-769 | index of the first active client with the name, or -1 |
| ChatRooms.Server.UsernameCommand | final/server/chatserver.c:370-390 | `/username` equals the specification |
| ChatRooms.Server.AcceptClient | final/server/chatserver.c:188-201 | takes the first free slot, if any |
| ChatRooms.Server.Cleanup | final/server/chatserver.c:301-315 | disconnecting equals the specification |
| ChatRooms.Server.BroadcastToRoom | final/server/chatserver.c:698-730 | sends to the sockets of the specification, in order |
| ChatRoomsProof.AtMostOneRoom | final/server/chatserver.c:797-851 | a client is in at most one room, which is its current room; inactive clients are in none |
| ChatRoomsProof.RemoveKeeps | final/server/chatserver.c:797-832 | removal keeps the tables consistent and leaves the client in no room |
| ChatRoomsProof.RemoveOnlyOne | final/server/chatserver.c:812-824 | nobody else's membership changes |
| ChatEffects.RemoveMeans | final/server/chatserver.c:797-832 | a removal takes the client off its list, keeping the order of the others, and changes no other list and no other client |
| ChatEffects.JoinMeans | final/server/chatserver.c:397-432 | a join takes the client off its old list and puts it behind the others on the new one if there is room; all other lists and clients are as they were |
| ChatEffects.JoinKeepsOthers | final/server/chatserver.c:834-851 | nobody else is put in a room or thrown out of one by a join |
| ChatEffects.NewRoomHasJoiner | final/server/chatserver.c:779-789 | a room made by a join has the joiner in it and nobody else |
| ChatEffects.AcceptMeans | final/server/chatserver.c:188-201 | a new client gets a slot nobody is using, if there is one, without name or room, and nobody else is touched |
| ChatEffects.DisconnectMeans | final/server/chatserver.c:301-315 | a client that has gone is in no room, inactive, and its slot can be given away |
| ChatEffects.RenameMeans | final/server/chatserver.c:370-390 | a name is refused exactly if an active client has it; a short one is how the client is found afterwards |
| ChatEffects.EventMeans | final/server/chatserver.c:188-492 | what each event brings about for the client it comes from |
| ChatEffects.RoomNameRule | final/server/chatserver.c:334-352 | room names are of 1 to 32 letters and digits |
| ChatRoomsProof.JoinIff | final/server/chatserver.c:397-432 | exactly when joining keeps the tables consistent |
| ChatRoomsProof.JoinedWhere | final/server/chatserver.c:834-851 | a client that joined is a member exactly if the room had space or could be made; its current room is set either way |
| ChatRoomsProof.LongNameBreaks | final/server/chatserver.c:340-425 | a 32-character name after its 31-character prefix breaks consistency |
| ChatLimits.TwinRoomsAreReached | final/server/chatserver.c:188-425 | one client of an empty server can bring about two rooms of one name |
| ChatRoomsProof.AlwaysConsistent | final/server/chatserver.c:188-492 | every sequence of accepts, joins, leaves, renames and disconnects keeps the tables consistent |
| ChatRoomsProof.LookupStable | final/server/chatserver.c:771-795 | a room is found at the same index ever after |
| ChatRoomsProof.BroadcastExact | final/server/chatserver.c:698-730 | a broadcast reaches each active member but the sender exactly once and nobody else |
| ChatUserNames.RenameIff | final/server/chatserver.c:370-390 | exactly when a new name keeps user names distinct; always for names of up to 15 characters |
| ChatUserNames.EventKeepsNames | final/server/chatserver.c:188-492 | any event keeps user names distinct exactly when it does not give a name whose stored form is somebody else's |
| ChatUserNames.SafeRunsKeepNames | final/server/chatserver.c:188-492 | over whole runs, user names stay distinct as long as the stored form of every name given is new |
| ChatUserNames.ShortNamesStayDistinct | final/server/chatserver.c:370-390 | names of up to 15 characters stay distinct over every run |
| ChatUserNames.LongUserNameClashes | final/server/chatserver.c:370-390 | a name of 16 characters after its first 15 gives two users one name |
| ChatLimits.ClashIsReached | final/server/chatserver.c:188-390 | two clients of an empty server can get there |
| FileQueue.Queue.constructor | final/server/chatserver.c:952-961 | an empty queue with nothing under way |
| FileQueue.Queue.EnqueueFile | final/server/chatserver.c:964-994 | appends, or refuses exactly when five are waiting |
| FileQueue.Queue.StartTransfer | final/server/chatserver.c:1000-1010 | grants exactly while fewer than five are under way |
| FileQueue.Queue.FinishTransfer | final/server/chatserver.c:1017-1026 | returns one grant |
| FileQueue.Queue.TryStartNext | final/server/chatserver.c:1028-1067 | starts or drops the head, or does nothing, as specified |
| FileQueue.OnlineIff | final/server/chatserver.c:1039-1044 | a transfer can go on exactly if active clients have both names |
| TransferThreads.ExecuteKeeps | final/server/chatserver.c:592-1067 | every interleaving keeps the accounts balanced and the queue in order |
| TransferThreads.SlotsAccounted | final/server/chatserver.c:592-923 | the counter is the number of grants not yet returned, at most five, positive at every return, zero owed at the end |
| TransferThreads.GrantIff | final/server/chatserver.c:996-1014 | a client that asks is granted a transfer exactly if fewer than five grants are out, and goes to the queue otherwise |
| TransferThreads.TryIff | final/server/chatserver.c:1028-1067 | a thread that is through takes out the next request exactly if one is waiting and fewer than five grants are out, and goes on with it exactly if both parties are online |
| TransferThreads.GrantedRuns | final/server/chatserver.c:605-625 | a granted transfer runs in its own thread or fails, and either way returns its grant once |
| TransferThreads.NoRequestLost | final/server/chatserver.c:592-1061 | every request is on its way, queued, turned away, or was granted at once |
| TransferThreads.QueueIsFifo | final/server/chatserver.c:964-1061 | accepted requests are those taken out followed by those waiting; refusal exactly at five |
| TransferThreads.RemovalsOneByOne | final/server/chatserver.c:1032-1061 | requests leave one by one in the order accepted, each started exactly if both parties are online |
| TransferThreads.ThreadsEnd | final/server/chatserver.c:592-923 | every request causes at most nine steps, so all threads end |
| LockOrder.OperationDisciplined | final/server/chatserver.c:189-1067 | every locking path takes queue before clients before rooms and returns all it took |
| LockOrder.OperationGuarded | final/server/chatserver.c:189-1067 | every piece of code takes exactly the mutexes of the tables it works on |
| LockOrder.NoDeadlock | final/server/chatserver.c:189-1067 | any number of threads in any interleaving: if one has locking left, one can go on; no lock is held twice |
| SatelliteQueue.AncestorsBeforeAndAbove | hw3/main.c:60-63 | heap ancestors come earlier in the array and have at least the priority |
| SatelliteQueue.HeapByChildren | hw3/main.c:60-63 | the heap is the binary one: places `2 * i + 1` and `2 * i + 2` never have more than place `i` |
| SatelliteQueue.AncestorsOfChild | hw3/main.c:60-63 | the ancestors of these two places are `i` and its ancestors |
| SatelliteQueue.GreatestInFront | hw3/main.c:50-65 | the greatest priority is at index 0 |
| SatelliteQueue.PriorityQueue.constructor | hw3/main.c:40-42 | an empty queue |
| SatelliteQueue.PriorityQueue.Swap | hw3/main.c:44-48 | exchanges two cells, keeping the contents |
| SatelliteQueue.PriorityQueue.SiftUp | hw3/main.c:60-63 | restores the heap with the same contents and says where the newcomer is |
| SatelliteQueue.PriorityQueue.Insert | hw3/main.c:50-65 | keeps the heap, adds exactly the satellite and returns it; refuses when full |
| SatelliteQueue.PriorityQueue.InsertAll | hw3/main.c:173-184 | the start-up loop leaves a heap of exactly the satellites |
| SatelliteQueue.MakePriorities | hw3/main.c:162-171 | whatever is drawn, each of 1 to n is given exactly once |
| SatelliteQueue.UpToIs | hw3/main.c:162-165 | the numbers before the shuffle are those from 1 to n, each once |
| SatelliteQueue.EveryOrderPossible | hw3/main.c:166-171 | every permutation can come out of the shuffle |
| Dispatch.ExecuteKeeps | hw3/main.c:76-154 | every interleaving keeps one scan at a time, requests consumed once, and late scans leaving only settled places behind |
| Dispatch.ClaimedOnce | hw3/main.c:112-133 | each satellite is claimed at most once, so at most n claims in all; only claimed ones are handled |
| Dispatch.AncestorsFirst | hw3/main.c:113-125 | a scan begun after all requests were posted claims a satellite only after all earlier places, so all heap ancestors, were claimed or timed out |
| Dispatch.ParentFirst | hw3/main.c:113-125 | such a claim of place `2 * i + 1` or `2 * i + 2` finds place `i` settled, with at least the priority |
| Dispatch.GreatestFirst | hw3/main.c:50-125 | with no time-out, the first satellite so claimed is the one of greatest priority |
| Dispatch.NobodyForgotten | hw3/main.c:128-129 | once an engineer left after such a scan, every satellite was claimed or timed out |
| DispatchHandling.AlwaysHandling | hw3/main.c:76-154 | over every interleaving, no satellite has two engineers, claims are noted, waiting satellites are told when their engineer is through, and time-outs are flagged |
| DispatchHandling.ClaimedAreHandled | hw3/main.c:131-143 | once no engineer is busy, exactly the claimed satellites are handled, and those that still wait can go |
| DispatchHandling.DoneIsFlagged | hw3/main.c:88-102 | no satellite ends without being handled or timed out |
| DispatchHandling.TimeOutNoted | hw3/main.c:91-99 | a time-out is noted exactly if the satellite is not handled at that moment |
| DispatchHandling.ScanBegins | hw3/main.c:112-113 | a scan begins in front, and counts as late exactly if all requests are posted |
| DispatchHandling.ScanReadsFlags | hw3/main.c:116-121 | a scan tries a place exactly if neither flag is set |
| DispatchHandling.ScanStaysLate | hw3/main.c:112-126 | what a scan found at its beginning holds until its claim |
| DispatchHandling.TryMeans | hw3/main.c:121-124 | a scan that tries a place claims it exactly if its request is there |
| DispatchHandling.LeavesAfterScan | hw3/main.c:109-148 | an engineer leaves only after a scan that found nothing |
| DispatchHandling.OnlyTriersClaim | hw3/main.c:121-124 | nobody else claims |
| Dispatch.StuckIffOver | hw3/main.c:76-154 | nothing can move exactly when all threads are over |
| Dispatch.MeasureDecreases | hw3/main.c:76-154 | every step lowers a measure |
| Dispatch.RunsEnd | hw3/main.c:106-154 | all loops end within a bound given by satellites and engineers |

## Left out

- The file-system exercises (`hw1`, `hw2`), the clients of the bank and the chat, and `final/server/server.py`: plumbing, or a second version whose paths re-take locks they hold.
- Bytes of sockets, FIFOs and console output: sends are values returned or recorded, requests are parameters.
- Bank.Server.FromLog: what the server does after loading more than 1024 accounts; it then uses memory that `realloc` may have given back.
- Bank.Server.GetOrCreateClient: failing memory allocation.
- TellerSlot.Serializable: a response is copied in one step, so a teller that polls while the struct is being written is not modelled; neither are signals that kill tellers.
- BankLives.LifeIsSequential: the bank is stopped between batches, and reloads at most 1024 accounts; an interrupt in the middle of a batch, which kills its tellers, is not modelled.
- Decimal.IntToStr: the least `int`, whose negation is not an `int`.
- LogSearchProof.ExecuteKeeps: the interrupt handler acts as a process of its own; that it may interrupt a thread that holds the buffer's lock is not modelled.
- ChatRoomsProof.AlwaysConsistent: `/exit` and the clean-up of its thread are one step; a slot taken again between the two is not modelled. `/list`, whispering and shutdown change no membership and are not modelled.
- TransferThreads.RemovalsOneByOne: whether the parties are online is read in one step. That a waiting transfer is started some day is not claimed: the check for a free slot and the queueing are two steps, and a dropped head starts nothing.
- LockOrder.NoDeadlock: a send that blocks while a mutex is held, and the shutdown handler's use of the clients' mutex.
- Dispatch.ClaimedOnce: handled and timed out may both become true for one satellite; no claim is made that they exclude each other, nor that the greatest waiting priority is always taken first.
- Time: the five-second limit is a step that may happen whenever the satellite waits unhandled.
