# Verification model of the EKiosk watchdog and of the kiosk's money, command and configuration code

This project models the parts of EKiosk whose correctness depends on more than one function, and proves
what they keep over whole runs. `dafny verify dfyconfig.toml` checks it.

Every component has the same two layers. A `...Model` module gives each operation as a function on a value
of the state, and a run as a fold of such functions over a list of events; the properties are lemmas about
those functions. A `...Handlers` module has the objects of the program: classes whose methods loop over and
assign their fields as the program does, each proved to compute the model's function. An event handler
`OnEvent` ties the object to one step of a run. What an operation does to the outside world is appended to a
trace or a log, so that properties can be stated about what happened and not about the counters that the
program keeps to achieve it.

| files | what is modelled |
|---|---|
| `WatchModel`, `WatchService`, `WatchHistory`, `WatchClaims`, `WatchOrder`, `WatchClock`, `WatchStarting`, `WatchVerdicts`, `WatchClosing`, `WatchCommands` | the watchdog: supervised processes, start and close commands, check passes, close passes, clock changes |
| `CommandQueue`, `CommandArrivals`, `CommandSafety`, `CommandProgress`, `CommandReplies` | the persistent queue of remote commands |
| `Ledger`, `LedgerSafety`, `LedgerBooks`, `LedgerRotation`, `LedgerStranded` | payments and collections as two tables, and the cleaning of both |
| `Cash`, `CashText`, `CashWriter` | writing the denomination strings, counting banknotes and coins, the encashment document and reading it back |
| `ConfigCache`, `ConfigReads` | the terminal's configuration: what is read from a document, and the hash-matched fast path |
| `Codec`, `CodecBits` | UTF-8, XOR and Base64 |
| `IniMerge` | the ordered merge of INI files |

Nine findings came out of stating properties at full generality; each is a lemma.

- `decodeStr(encodeStr(s, k), k)` loses a byte-order mark in front of `s`, because `fromUtf8` drops it and
  `toUtf8` writes it. The round trip holds exactly for strings that do not begin with one
  (`CodecModel.CodecRoundTrip`, `CodecModel.MarkIsLost`).
- A reboot requested on the terminal while a remote command waits in the slot replaces the command's action
  but not its transaction: the command is reported as executed and was never done
  (`CommandSafety.OwnActionIffNotTakenOver`, `CommandSafety.LocalRebootLosesCommand`).
- A command stored with an empty transaction number stops the queue for good, and nothing else does
  (`CommandProgress.StallsForeverIff`, `CommandProgress.OneOrderStalls`).
- An encashment by an explicit collection id leaves two new collections unless the id is that of the only new
  one or has no payments; the code checks neither (`LedgerRotation.EncashmentKeepsOneNewIff`,
  `LedgerRotation.SuchARunExists`).
- Two kinds of payment are never cleaned. A cleaning can delete a confirmed collection and leave a payment of it
  behind: one that the server has not received, or one that it has but that is dated outside the range while its
  collection was encashed within the range (`LedgerStranded.CleaningStrandsIff`,
  `LedgerStranded.StrandingRunExists`). And a range begins with last year, so a payment that was not settled by
  then is older than every range to come, although its collection is still there
  (`LedgerStranded.RemovableFromIff`, `LedgerStranded.OldPaymentExists`).
- A module that answered, crashed and was launched again lets the modules that wait for it start before its new
  process has answered, because a launch leaves both dates as they were
  (`WatchOrder.LaunchAnsweredIff`, `WatchOrder.LaunchedOnAnOldAnswer`). For the same reason the new process can be
  killed for silence before it has come up (`WatchStarting.SilencedHadItsTimeIff`,
  `WatchStarting.KilledBeforeItCameUp`).
- A starting process counts as closed, so the close action can be taken while one is coming up
  (`WatchStarting.ClosesEverythingIff`, `WatchStarting.ClosedWhileStarting`).
- A reply about one command can confirm another whose own request was dropped (`CommandReplies.AnsweredIsConfirmedIff`,
  `CommandReplies.AnotherIsConfirmed`).
- Coins are written in whole units and tallied by faces in hundredths, so no coin is tallied at its worth
  (`CashWriter.CoinsAreTalliedIff`).

## Model

| member | source | states |
|---|---|---|
| `WatchHandlers.WatchService.CanRun` | `apps/WatchService/src/WatchService.cpp:800-828` | the loop answers whether no module blocks the start: for an exclusive module none runs, otherwise every needed module of smaller priority has a process and has answered |
| `WatchHandlers.WatchService.CanTerminate` | `apps/WatchService/src/WatchService.cpp:830-846` | the loop answers whether no running module has a smaller close priority |
| `WatchHandlers.WatchService.Kill` | `apps/WatchService/src/WatchService.cpp:70-89` | the new state and the verdict for every way the process may react, a start signal delivered during the wait included |
| `WatchHandlers.WatchService.CloseModule` | `apps/WatchService/src/WatchService.cpp:919-963` | the whole new state: not needed any more, then blocked, asked to close, or killed after its closing time |
| `WatchHandlers.WatchService.RestoreOthers` | `apps/WatchService/src/WatchService.cpp:650-657` | every non-exclusive module except the exhausted one gets its saved flag back, and nothing else changes |
| `WatchHandlers.WatchService.TryStart` | `apps/WatchService/src/WatchService.cpp:635-665` | a module that may not run is left alone, one over its limit is given up, any other is launched |
| `WatchHandlers.WatchService.JudgeAnswer` | `apps/WatchService/src/WatchService.cpp:674-712` | waits for a first ping, counts one missed deadline, kills at the second, clears the count otherwise |
| `WatchHandlers.WatchService.OnCheckModules` | `apps/WatchService/src/WatchService.cpp:609-718` | the loop over all modules is the fold of the one-module check in key order |
| `WatchHandlers.WatchService.DoCloseModules` | `apps/WatchService/src/WatchService.cpp:853-889` | the loop over all modules is the fold of the one-module close, with one retry scheduled and the close action at the end |
| `WatchHandlers.WatchService.CloseActionNow` | `apps/WatchService/src/WatchService.cpp:1028-1062` | the action that was asked for is taken, and a restart forgets it |
| `WatchHandlers.WatchService.MessageReceived` | `apps/WatchService/src/WatchService.cpp:400-587` | each command's whole new state, check and close passes included, and the sender's touch afterwards |
| `WatchHandlers.WatchService.CheckAutoStartModules` | `apps/WatchService/src/WatchService.cpp:388-398` | each auto-started module that is not needed is needed again with its counter reset, and a whole check pass follows at once |
| `WatchHandlers.WatchService.OnModuleStarted` | `apps/WatchService/src/WatchService.cpp:765-781` | the start signal counts a start and sets both dates; it is the model's step |
| `WatchHandlers.WatchService.OnModuleFinished` | `apps/WatchService/src/WatchService.cpp:721-763` | the finish signal frees the process and may announce it; it is the model's step |
| `WatchHandlers.WatchService.OnTimeChanged` | `apps/WatchService/src/WatchService.cpp:598-607` | the loop moves both dates of every module by the offset and nothing else |
| `WatchHandlers.WatchService.OnEvent` | `apps/WatchService/src/WatchService.cpp:383-781` | for every event the object's new state and trace are one step of the state machine that the claims below are about |
| `WatchHistory.InvEverywhere` | `apps/WatchService/src/WatchService.cpp:388-781` | in every state of every run each counter agrees with what the trace says happened, and every kill and every exhausted limit in the trace was justified when it happened |
| `WatchClaims.RestartLimit` | `apps/WatchService/src/WatchService.cpp:641-665` | for a limited module, over all runs: successful starts since the last counter reset are at most the restart count, which is at most the limit, and strictly less while a start is pending |
| `WatchClaims.StartsCounted` | `apps/WatchService/src/WatchService.cpp:765-781` | no stretch of a trace without a reset holds more start signals than the count of starts since the last reset |
| `WatchClaims.MissPendingMeans` | `apps/WatchService/src/WatchService.cpp:674-712` | a miss is pending exactly when the trace holds a missed deadline with no answer in time and no kill for silence after it |
| `WatchClaims.TwoStrikes` | `apps/WatchService/src/WatchService.cpp:674-712` | over all runs the no-response counter is 0 or 1, and every kill for silence follows an earlier missed deadline of that module with no on-time check and no other kill for silence between; a kill that ends a close request is not counted here |
| `WatchClaims.SilenceKillsAreOverdue` | `apps/WatchService/src/WatchService.cpp:669-712` | a check pass kills for silence only a module whose ping deadline and, without a ping since its start, first-ping deadline had passed when the pass began |
| `WatchStarting.SilencedHadItsTimeIff` | `apps/WatchService/src/WatchService.cpp:666-712` | a process that a check pass kills for silence had answered, or had its first-ping time since it came up, if and only if it was running; one launched again after a crash is judged by the dates of the process before it |
| `WatchStarting.KilledBeforeItCameUp` | `apps/WatchService/src/WatchService.cpp:666-712` | a run from the first start on in which a new process is killed for silence before it has come up |
| `WatchClaims.StartupKillsCounted` | `apps/WatchService/src/WatchService.cpp:64-89` | the back-off counter is the number of start-up kills in the trace since the last ping or other kill |
| `WatchClaims.FirstPingBackoff` | `apps/WatchService/src/WatchService.cpp:64-95` | over all runs, after n start-up kills the first-ping timeout is min(base + 10 n, 600) if and only if the unsigned sum does not wrap to below the cap |
| `WatchClaims.ExclusiveRestores` | `apps/WatchService/src/WatchService.cpp:424-437` | over all runs: when an exclusive module uses up its starts, every other non-exclusive module is needed exactly if it was in the state just before the latest exclusive start command, which saved it |
| `WatchOrder.LaunchOrder` | `apps/WatchService/src/WatchService.cpp:800-828` | in any reachable state a module of ordinary priority is launched only when every other module is ready for it: for an exclusive one, not running; otherwise, if needed and of smaller priority, with a process and a ping since it last came up |
| `WatchOrder.LaunchAnsweredIff` | `apps/WatchService/src/WatchService.cpp:813-826` | that ping comes from the process the other module has now if and only if that process is running; one launched again after a crash passes the gate unanswered |
| `WatchOrder.AnsweredInLifeMeans` | `apps/WatchService/src/WatchService.cpp:765-781` | what the history records as an answer of the present process is a ping after its start signal, with no launch, start signal or reload since |
| `WatchOrder.LaunchedOnAnOldAnswer` | `apps/WatchService/src/WatchService.cpp:813-826` | a run from the first start on that launches a module while the one it waits for has been launched again and has not answered |
| `WatchOrder.CloseOrder` | `apps/WatchService/src/WatchService.cpp:853-889` | within a close pass a message or kill reaches a module of ordinary priority only after every running module of smaller priority was killed earlier in that pass and is gone |
| `WatchOrder.ClosesIffNothingRuns` | `apps/WatchService/src/WatchService.cpp:853-889` | a close pass takes the close action if and only if it leaves nothing running, and then as its last effect |
| `WatchStarting.ClosesEverythingIff` | `apps/WatchService/src/WatchService.cpp:853-963` | a close pass leaves no process at all if and only if it takes the close action and nothing was starting when it began |
| `WatchStarting.ClosedWhileStarting` | `apps/WatchService/src/WatchService.cpp:919-963` | a run from the first start on in which the close action is taken while a process is still starting |
| `WatchOrder.SurvivorsWereBlocked` | `apps/WatchService/src/WatchService.cpp:830-963` | with deadlines past and kills succeeding, what a close pass leaves running was blocked by a running module of smaller priority |
| `WatchOrder.RoundDropsPriority` | `apps/WatchService/src/WatchService.cpp:830-963` | a close pass that does not finish removes at least one priority from the set of running priorities: the termination measure |
| `WatchOrder.ShutdownEnds` | `apps/WatchService/src/WatchService.cpp:830-963` | with no starts or pings, deadlines past and kills succeeding, the close action is taken within max(1, number of distinct running close priorities) passes, for any order of the modules and any exits on the way |
| `WatchClock.StepApart` | `apps/WatchService/src/WatchService.cpp:598-781` | one event, seen by two services a clock shift apart at correspondingly shifted times, leaves them the same shift apart with the same effects |
| `WatchClock.ClockChangeIsInvisible` | `apps/WatchService/src/WatchService.cpp:598-607` | a clock jump the watchdog is told of, followed by any events at shifted times, gives the same trace as no jump and ends in the shifted state |
| `WatchVerdicts.CheckPassDecides` | `apps/WatchService/src/WatchService.cpp:609-718` | for every state, what a check pass does to each module, if and only if: a needed process is killed for silence (both deadlines over for the second time), counts a miss (for the first time) or is on time; a needed module without a process is launched (no other one keeps it, starts left) or given up (none left); a running one that is not needed is killed (closing time over) or asked to close |
| `WatchVerdicts.CheckPassLeaves` | `apps/WatchService/src/WatchService.cpp:609-718` | for every state, what a check pass leaves of each module: its process changes by a launch or a kill only, its dates by a start signal during the kill only, and one command is taken off its stack |
| `WatchVerdicts.OthersNeeds` | `apps/WatchService/src/WatchService.cpp:641-661` | a module's turn changes the need of another one only when it is exclusive and given up, the other one is not exclusive, and then to the saved one, as recorded |
| `WatchVerdicts.NeededAsBefore` | `apps/WatchService/src/WatchService.cpp:613-624` | unless an exclusive module was given up before it, a module is needed at its turn as it was when the pass began |
| `WatchClosing.ClosePassDecides` | `apps/WatchService/src/WatchService.cpp:853-963` | for every state, what a close pass does to each module: one that runs and is not blocked by a running one of smaller priority is killed if and only if its closing time is over, and asked to close if and only if that has not ended it; whatever is left running was blocked or asked |
| `WatchClosing.ClosePassSignals` | `apps/WatchService/src/WatchService.cpp:853-889` | a close pass stops the check timer, schedules exactly one retry unless it takes the close action, and tells everybody if and only if the updater asked, else the updater |
| `WatchCommands.StepTakes` | `apps/WatchService/src/WatchService.cpp:400-587` | no event takes a close action but the one asked for after it, which is remembered until another is asked for or until it was a restart and is taken |
| `WatchCommands.TakenAsAsked` | `apps/WatchService/src/WatchService.cpp:1028-1062` | over every run a close action that is taken is the one of the latest command that closes everything, or none after a restart was taken |
| `WatchCommands.ClosingCommandCloses` | `apps/WatchService/src/WatchService.cpp:481-559` | each of the five commands leaves no module needed and no check timer, has the effects of a close pass on each module, and its own action is taken at once if and only if nothing is left running |
| `WatchCommands.RunObeysOrders` | `apps/WatchService/src/WatchService.cpp:613-621` | over every run no start or close command is left on a stack between two events |
| `WatchCommands.StartIsObeyed` | `apps/WatchService/src/WatchService.cpp:421-450` | in every reachable state a start command launches its module at once if and only if it has no process and no other module keeps it when the check comes to it; it is not given up or closed |
| `WatchCommands.CloseIsObeyed` | `apps/WatchService/src/WatchService.cpp:453-478` | in every reachable state a close command kills a running module if and only if its closing time is over and asks it to close unless that has ended it; a module that is started automatically has a new start scheduled |
| `WatchCommands.SenderIsTouched` | `apps/WatchService/src/WatchService.cpp:579-584` | every message, whatever it asks for, sets its sender's date and forgets its start-up kills |
| `WatchCommands.RearmedIff` | `apps/WatchService/src/WatchService.cpp:388-398` | the automatic start resets a module's count if and only if it is started automatically and is not needed at its turn |
| `WatchCommands.NoChecksWhileClosing` | `apps/WatchService/src/WatchService.cpp:853-858` | over every run from a stopped check timer, and until the modules are loaded again, a tick of the timer does nothing |
| `WatchCommands.SignalMoves` | `apps/WatchService/src/WatchService.cpp:721-798` | what each signal of a process does to its module, late ones included, and that it does nothing to another one |
| `WatchCommands.UnknownTarget` | `apps/WatchService/src/WatchService.cpp:421-478` | a start command for an unknown module does nothing, a close command is passed on, and either way only the sender is touched |
| `CommandHandlers.CommandQueue.GetCommandFromServer` | `deprecated/ekiosk-src/mainwindow.cpp:3280-3322` | the loop stores each order whose transaction is not in the table, and the check timer runs if any was stored |
| `CommandHandlers.CommandQueue.CommandCheck` | `deprecated/ekiosk-src/mainwindow.cpp:3324-3377` | the whole new state for the smallest unconfirmed transaction in each status, with the fallback after fifteen tries |
| `CommandHandlers.CommandQueue.CommandExecute` | `deprecated/ekiosk-src/mainwindow.cpp:3419-3427` | off the main page nothing happens; on it the action in the slot is dispatched and the slot is emptied |
| `CommandHandlers.CommandQueue.CommandExecution` | `deprecated/ekiosk-src/mainwindow.cpp:3429-3538` | the timer stops, the action is dispatched, and exactly the slot's row becomes executed |
| `CommandHandlers.CommandQueue.RestartTerminalInit` | `deprecated/ekiosk-src/mainwindow.cpp:2228-2231` | a local reboot replaces the action in the slot and leaves the transaction there |
| `CommandHandlers.CommandQueue.SendCommandConfirm` | `deprecated/ekiosk-src/modules/CommandConfirm.cpp:57-75` | the transaction to confirm is replaced in any case, and the request goes out only if none is in flight |
| `CommandHandlers.CommandQueue.OnEvent` | `deprecated/ekiosk-src/mainwindow.cpp:3280-3538` | for every event the object's new state and log are one step of the queue that the claims below are about |
| `CommandArrivals.ArrivesIff` | `deprecated/ekiosk-src/mainwindow.cpp:3280-3309` | what is added by a response: each order whose number is new, the first one of several, with its command, account and comment, and nothing else; a response during an update adds nothing |
| `CommandArrivals.RowsComeFromOrders` | `deprecated/ekiosk-src/mainwindow.cpp:3292-3309` | over every run each row in the table has the number, command, account and comment of one order that was received |
| `CommandArrivals.ArmsIff` | `deprecated/ekiosk-src/mainwindow.cpp:3324-3357` | in every reachable state an event fills the slot if and only if it is an idle tick of the check timer and the waiting row of the smallest number has one and has just arrived; the slot then holds that row |
| `CommandArrivals.DispatchesIff` | `deprecated/ekiosk-src/mainwindow.cpp:3419-3440` | an event dispatches if and only if it is a tick of the execution timer on the main page; it is the action in the slot for the slot's command or none, and timer and slot are cleared |
| `CommandArrivals.AsksIff` | `deprecated/ekiosk-src/mainwindow.cpp:3371-3376` | in every reachable state a command is asked about if and only if an idle tick finds it executed and next, or the latest request is repeated; the request goes out exactly if none is in flight |
| `CommandArrivals.RepliesIff` | `deprecated/ekiosk-src/modules/CommandConfirm.cpp:22-55` | a command is confirmed if and only if a positive reply ends a request, and it is the one asked about last; every reply ends the request |
| `CommandArrivals.RebootHappens` | `deprecated/ekiosk-src/mainwindow.cpp:2228-2231` | a reboot asked for on the terminal is dispatched on the next visit of the main page, for the slot's command or for none |
| `CommandSafety.KeepsRun` | `deprecated/ekiosk-src/mainwindow.cpp:3280-3538` | every run keeps: distinct transactions, each row's status in agreement with its dispatches, the slot filled from an undispatched row, a local request behind a timer that runs for an empty slot, every dispatch justified |
| `CommandSafety.AtMostOnce` | `deprecated/ekiosk-src/mainwindow.cpp:3280-3538` | over every run each dispatch after another has a cause of its own: for a transaction, a new storing of it in between; from an empty slot, a local request in between, and then it is a reboot |
| `CommandSafety.LeftOnlyByDispatch` | `deprecated/ekiosk-src/mainwindow.cpp:3324-3427` | in every reachable state a row has left new and executing if and only if it was dispatched since it was stored, and then exactly once |
| `CommandSafety.OwnActionIffNotTakenOver` | `deprecated/ekiosk-src/mainwindow.cpp:3419-3538` | over every run the action dispatched for a command is its own if and only if no local reboot request came after the slot was filled, or it is a reboot itself |
| `CommandSafety.LocalRebootLosesCommand` | `deprecated/ekiosk-src/mainwindow.cpp:2228-2231` | a four-event run in which a command is marked executed although only a reboot was dispatched |
| `CommandSafety.ConfirmedStays` | `deprecated/ekiosk-src/mainwindow.cpp:3406-3417` | over every run a confirmed command is still confirmed or its row was deleted at some point |
| `CommandReplies.AnsweredIsConfirmedIff` | `deprecated/ekiosk-src/modules/CommandConfirm.cpp:22-75` | over every run a positive reply confirms the command it answers if and only if no other command was asked about last, and its request dropped, while the request was in flight |
| `CommandReplies.AnotherIsConfirmed` | `deprecated/ekiosk-src/modules/CommandConfirm.cpp:57-75` | a run in which the reply about one command confirms another, about which no request was sent |
| `CommandSafety.ActiveIsLeast` | `deprecated/ekiosk-src/mainwindow.cpp:3379-3404` | the row looked at is unconfirmed and no unconfirmed row sorts before it; there is none only if all are confirmed |
| `CommandProgress.LostSlotIsRefilled` | `deprecated/ekiosk-src/mainwindow.cpp:3343-3370` | a command whose slot was overwritten or lost is back in the slot, with its own action, after the remaining tries and one more tick |
| `CommandProgress.WaitingIsWatched` | `deprecated/ekiosk-src/mainwindow.cpp:3311-3341` | over every run the check timer runs while a command waits, unless one with an empty transaction is in the table: a queue that had gone to sleep is woken by every new command |
| `CommandProgress.StallsForeverIff` | `deprecated/ekiosk-src/mainwindow.cpp:3336-3341` | in every reachable state no continuation at all fills the slot again if and only if a command with an empty transaction is in the table; without one, a continuation does in which the program is not restarted |
| `CommandProgress.CheckStallsIff` | `deprecated/ekiosk-src/mainwindow.cpp:3324-3341` | in every reachable state with a command waiting, an idle check does nothing but stop the timer if and only if a command with an empty transaction is in the table |
| `CommandProgress.StalledIff` | `deprecated/ekiosk-src/mainwindow.cpp:3280-3538` | in every reachable state such a command is as it arrived, and in neither the slot nor a confirmation request |
| `CommandProgress.OneOrderStalls` | `deprecated/ekiosk-src/mainwindow.cpp:3292-3309` | one order with an empty transaction, received by a new terminal, is enough |
| `LedgerHandlers.Ledger.GetNewPay` | `deprecated/ekiosk-src/modules/PayDaemons.cpp:149-212` | the whole new tables: a known transaction changes nothing, otherwise one row of status 54 in the current collection, opened if there is none |
| `LedgerHandlers.Ledger.GetCollectionId` | `deprecated/ekiosk-src/modules/PayDaemons.cpp:709-747` | the id of the first new collection, or of a new row with the generated id |
| `LedgerHandlers.Ledger.SendPaymentToServer` | `deprecated/ekiosk-src/modules/PayDaemons.cpp:436-535` | unfinished payments become due on the first request only, and the first due payment is the one sent |
| `LedgerHandlers.Ledger.GetConfirmPay` | `deprecated/ekiosk-src/modules/PayDaemons.cpp:304-348` | printing marks the receipt; payment turns 54 into 55 and sends at once |
| `LedgerHandlers.Ledger.CheckPayStatus54` | `deprecated/ekiosk-src/modules/PayDaemons.cpp:664-707` | every payment of status 54 or 3 becomes due, and without any nothing changes |
| `LedgerHandlers.Ledger.UpdateOperationStatus` | `deprecated/ekiosk-src/modules/PayDaemons.cpp:617-639` | exactly the payment's row takes the server's status, and is marked as received unless the time is 0 |
| `LedgerHandlers.Ledger.EncashNow` | `deprecated/ekiosk-src/modules/CollectDaemons.cpp:497-609` | without payments nothing changes; otherwise the target is sent and linked to a new collection |
| `LedgerHandlers.Ledger.SendCollection` | `deprecated/ekiosk-src/modules/CollectDaemons.cpp:1064-1118` | the row of the collection is sent, dated and names its successor, no other row changes, and the successor is added as new |
| `LedgerHandlers.Ledger.ClearDataBase` | `deprecated/ekiosk-src/mainwindow.cpp:4311-4353` | exactly the received payments of confirmed collections in the range are deleted, and then the confirmed collections in it |
| `LedgerHandlers.Ledger.OnEvent` | `deprecated/ekiosk-src/modules/PayDaemons.cpp:149-747` | for every event the tables and the log are one step of the ledger that the claims below are about |
| `LedgerSafety.TrnsAreUnique` | `deprecated/ekiosk-src/modules/PayDaemons.cpp:167-172` | over every run no two payments share a transaction |
| `LedgerSafety.AnsweredIsQuiet` | `deprecated/ekiosk-src/modules/PayDaemons.cpp:532-536` | over every run a payment whose status is not 3, 54 or 55 keeps it and is never selected again while its row is there and the server does not answer for it |
| `LedgerSafety.RemovedWhenSettled` | `deprecated/ekiosk-src/mainwindow.cpp:4323-4331` | an event removes a payment only if it is a cleaning, the server received the payment, its collection is confirmed and its date is in the range |
| `LedgerSafety.CleaningIsExact` | `deprecated/ekiosk-src/mainwindow.cpp:4323-4335` | a cleaning deletes a payment if and only if it was received, is in the range and its collection is confirmed, and a collection if and only if it is confirmed and in the range |
| `LedgerSafety.PaymentMoves` | `deprecated/ekiosk-src/modules/PayDaemons.cpp:214-707` | what becomes of a payment under every event, column by column: its status becomes 55 exactly if it was 54 and it is confirmed itself, or 54 or 3 and unconfirmed payments are checked or the first request is made, and else changes only to the server's answer for it; amount and date change by an amendment only, and the marks for received and printed are never taken away |
| `LedgerSafety.ConfirmedIsDue` | `deprecated/ekiosk-src/modules/PayDaemons.cpp:322-347` | a confirmation that is not the first request makes exactly the confirmed payment due, if it had status 54, and loses none |
| `LedgerSafety.LeavesCreatedOnlyThrough` | `deprecated/ekiosk-src/modules/PayDaemons.cpp:304-707` | over every run, while its row is there, a payment leaves 54 only by its own confirmation, the first request, the check of unconfirmed payments or the server's answer for it |
| `LedgerSafety.OldestDueIsSent` | `deprecated/ekiosk-src/modules/PayDaemons.cpp:322-536` | the send timer and every confirmation make a request, which carries the first payment in the table that is due then, if and only if one is |
| `LedgerSafety.FirstRequestIff` | `deprecated/ekiosk-src/modules/PayDaemons.cpp:436-447` | a request is the first one exactly until the first one is made or the balance is known, after each start of the program |
| `LedgerSafety.OnlyRequestsSelect` | `deprecated/ekiosk-src/modules/PayDaemons.cpp:436-536` | no other event selects a payment |
| `LedgerSafety.PaymentArrives` | `deprecated/ekiosk-src/modules/PayDaemons.cpp:149-212` | a payment of a new transaction is added with status 54 to a new collection that is in the table then, the first one unless one without an id is new; a known one changes nothing |
| `LedgerSafety.CollectionMoves` | `deprecated/ekiosk-src/modules/CollectDaemons.cpp:1064-1128` | what becomes of the collections under every event but a cleaning: exactly the row an encashment is about is sent and linked, exactly the row an answer is for is confirmed, and exactly one is added when a registration, payment or encashment opens it |
| `LedgerSafety.CurrentIsFirstNew` | `deprecated/ekiosk-src/modules/PayDaemons.cpp:709-747` | the current collection is the first new one |
| `LedgerBooks.BooksAreTheTable` | `deprecated/ekiosk-src/modules/PayDaemons.cpp:149-265` | over every run the payment table is, row by row, what the log alone amounts to: the accepted payments that no cleaning removed, each at the amount it came with or was last amended to |
| `LedgerBooks.PaymentTakenIff` | `deprecated/ekiosk-src/modules/PayDaemons.cpp:167-198` | over every run a payment is taken if and only if none is owed for its transaction, and then at the amount it comes with |
| `LedgerBooks.CashIsConserved` | `deprecated/ekiosk-src/modules/PayDaemons.cpp:149-265` | over every run a collection's payments amount to the accepted payments at their last amounts, less those that cleanings removed |
| `LedgerBooks.UnconfirmedTotalsSurvive` | `deprecated/ekiosk-src/mainwindow.cpp:4311-4353` | over every run, until the server confirms a collection its total is all that was taken for it |
| `LedgerBooks.ExplainedStep` | `deprecated/ekiosk-src/modules/PayDaemons.cpp:617-639` | a payment marked as sent was received by the server since it was booked, a confirmed collection was confirmed by the server, and every removal had both |
| `LedgerBooks.PaymentsAreAccountedFor` | `deprecated/ekiosk-src/mainwindow.cpp:4323-4331` | over every run a booked payment is in the table under its collection, or was removed after the server received it and confirmed that collection |
| `LedgerRotation.RotationStep` | `deprecated/ekiosk-src/modules/CollectDaemons.cpp:1025-1128` | with fresh ids every event, any encashment included, keeps collection ids distinct and successors distinct |
| `LedgerRotation.PredecessorIsUnique` | `deprecated/ekiosk-src/modules/CollectDaemons.cpp:1025-1046` | over every run with fresh ids a collection has at most one predecessor, and the previous encashment's date is that row's |
| `LedgerRotation.EncashmentLinks` | `deprecated/ekiosk-src/modules/CollectDaemons.cpp:1085-1118` | after an encashment the collection it opened is new, and its previous date is the encashment's |
| `LedgerRotation.EncashmentKeepsOneNewIff` | `deprecated/ekiosk-src/mainwindow.cpp:3499-3511` | an encashment keeps at most one collection new if and only if it finds no payments or every new collection is the one it is about |
| `LedgerRotation.OneNewIff` | `deprecated/ekiosk-src/modules/CollectDaemons.cpp:497-609` | over every run with fresh ids at most one collection is ever new if and only if every encashment passed that guard |
| `LedgerRotation.CurrentEncashmentsRotate` | `deprecated/ekiosk-src/modules/CollectDaemons.cpp:511-513` | over every run that encashes only the current collection, at most one collection is ever new |
| `LedgerRotation.SecondNewCollection` | `deprecated/ekiosk-src/mainwindow.cpp:3507-3510` | encashing by id while another collection is new leaves two |
| `LedgerRotation.SuchARunExists` | `deprecated/ekiosk-src/mainwindow.cpp:3507-3510` | a run with fresh ids that reaches two new collections |
| `LedgerRotation.SentCollectionsAreClosed` | `deprecated/ekiosk-src/modules/PayDaemons.cpp:174-198` | over every run with fresh ids no payment is ever added to a collection that is no longer new, even after its row is gone |
| `LedgerStranded.RemovableFromIff` | `deprecated/ekiosk-src/mainwindow.cpp:4313-4331` | in every state of every run with fresh ids, for every bound: some continuation whose cleanings all begin at the bound or later, and which does not amend the payment, removes it if and only if the row of its collection is in the table and the payment is not older than the bound |
| `LedgerStranded.OldPaymentExists` | `deprecated/ekiosk-src/mainwindow.cpp:4313-4331` | a reachable payment that was received and whose collection is in the table, and that no such continuation removes |
| `LedgerStranded.CleaningStrandsIff` | `deprecated/ekiosk-src/mainwindow.cpp:4323-4335` | a cleaning deletes a payment's collection and leaves the payment if and only if the collection is confirmed and in the range and the payment was not received or is itself out of the range |
| `LedgerStranded.StrandingRunExists` | `deprecated/ekiosk-src/mainwindow.cpp:4311-4353` | a run with fresh ids that strands a payment the server has not received, and one that strands a payment it has |
| `CashHandlers.NominalData.CalculateTotal` | `deprecated/ekiosk-src/modules/CollectDaemons.h:54-70` | the loops give the count and the worth of both kinds |
| `CashHandlers.NominalData.ParserCollectIntoOperation` | `deprecated/ekiosk-src/modules/CollectDaemons.cpp:444-495` | the loops over records, tokens and denominations compute the tally, and the totals are its totals |
| `CashHandlers.NominalData.GetDenominalXml` | `deprecated/ekiosk-src/modules/CollectDaemons.cpp:1048-1062` | the document has one slot for each denomination, bills first, coins marked |
| `CashHandlers.NominalData.ParsDenomilSlot` | `deprecated/ekiosk-src/modules/CollectDaemons.cpp:901-954` | the fifteen slots are read by position into the denominations; a text that is no document clears the counts and leaves the totals |
| `CashModel.IntTextReads` | `deprecated/ekiosk-src/modules/CollectDaemons.cpp:1048-1062` | every 32-bit number printed in decimal reads back as itself |
| `CashModel.MarkedFace` | `deprecated/ekiosk-src/modules/CollectDaemons.cpp:934-936` | a coin's marked face reads as 0 until the mark is removed, and then as the face |
| `CashModel.SidesApart` | `deprecated/ekiosk-src/modules/CollectDaemons.cpp:470-489` | bills and coins are counted independently of each other |
| `CashModel.TallyConserves` | `deprecated/ekiosk-src/modules/CollectDaemons.cpp:444-495` | for any strings and faces the counts and sums of each kind are the number and the sum of the recognised tokens, and no face changes |
| `CashText.TallyCountsEach` | `deprecated/ekiosk-src/modules/CollectDaemons.cpp:444-495` | after the tally each denomination counts the tokens of its kind that read as its face, the first one only of two with the same face |
| `CashText.TokensSplit` | `deprecated/ekiosk-src/modules/CollectDaemons.cpp:468` | a string falls into tokens at its commas, and empty ones do not count |
| `CashText.NumbersRead` | `deprecated/ekiosk-src/modules/CollectDaemons.cpp:470-489` | digits with a sign or without one read as the number, if it has 32 bits, whatever space is around them |
| `CashText.OnlyNumbersRead` | `deprecated/ekiosk-src/modules/CollectDaemons.cpp:470-489` | nothing else reads as anything but 0 |
| `CashWriter.MainPageLoader.InputNominal` | `deprecated/ekiosk-src/ui/mainpageloader.cpp:948-989` | each piece adds its token to the payment's string, a coin divided by a hundred and marked |
| `CashWriter.JoinedSplits` | `deprecated/ekiosk-src/modules/CollectDaemons.cpp:468` | splitting at commas gives back the tokens that were joined |
| `CashWriter.WrittenTally` | `deprecated/ekiosk-src/modules/CollectDaemons.cpp:444-495` | for the strings the terminal writes: every note counts at its nominal, every coin at a hundredth of its nominal if that is whole and else at nothing, as far as there is such a face |
| `CashWriter.NotesAreTallied` | `deprecated/ekiosk-src/modules/CollectDaemons.cpp:444-495` | if every note has a face, the tally's sum is the worth of the notes inserted |
| `CashWriter.CoinsAreTalliedIff` | `deprecated/ekiosk-src/ui/mainpageloader.cpp:953-985` | the tally's sum of coins is the worth of the coins inserted if and only if none was, whatever faces are configured |
| `CashModel.FittingReadsBack` | `deprecated/ekiosk-src/modules/CollectDaemons.cpp:901-954` | a configuration that fits the slots reads back every count from its document |
| `CashModel.ReadsBackIffFits` | `deprecated/ekiosk-src/modules/CollectDaemons.cpp:920-946` | with positive distinct faces every count of a configuration reads back if and only if there are nine bills and at most six coins, or at most nine bills and no coins |
| `CashModel.ReprintMatches` | `deprecated/ekiosk-src/modules/CollectDaemons.cpp:535-537` | the document of a tally, read back over any counts, shows the tally and the worth of the payments |
| `ConfigHandlers.GetServices.ParcerHash` | `deprecated/ekiosk-src/modules/GetServices.cpp:105-188` | the recursive walk that assigns fields in place is the fold in document order, its early return included |
| `ConfigHandlers.GetServices.ParseNode` | `deprecated/ekiosk-src/modules/GetServices.cpp:190-426` | the same for the full walk and its provider counts |
| `ConfigHandlers.GetServices.SetDataNote` | `deprecated/ekiosk-src/modules/GetServices.cpp:18-103` | what is stored and what is sent on, for each outcome of the hash check, the walks and saving |
| `ConfigReads.FullReadsLast` | `deprecated/ekiosk-src/modules/GetServices.cpp:190-426` | from any document without a rejecting code the full walk reads each of the fifteen fields from the last element in document order that carries it (its text, unquoted for names, phones and addresses, or an attribute; the coin acceptor only below the devices), and an empty string without one |
| `ConfigReads.HashReadsLast` | `deprecated/ekiosk-src/modules/GetServices.cpp:105-188` | so does the hash walk the seven changing fields, and it reads no other |
| `ConfigReads.TextsFollow` | `deprecated/ekiosk-src/modules/GetServices.cpp:105-426` | the text of an element is the texts in it, at any depth, one after another |
| `ConfigReads.UnquotedDrops` | `deprecated/ekiosk-src/modules/GetServices.cpp:244-262` | unquoting drops both kinds of quotes wherever they stand and nothing else |
| `ConfigReads.ServicesStoredIff` | `deprecated/ekiosk-src/modules/GetServices.cpp:48-74` | a full parse leaves as many services as the document lists, if it was not refused, that is as many as its last list has, and they are saved; else none |
| `ConfigReads.StoredRowIsUsed` | `deprecated/ekiosk-src/modules/GetServices.cpp:25-45` | a response with the hash of one that left services behind is answered with that one's static fields, whatever its own are, and leaves the store as it was |
| `ConfigModel.WalkOverlays` | `deprecated/ekiosk-src/modules/GetServices.cpp:105-426` | a walk's fields lie over what was read before and do not depend on it |
| `ConfigModel.WalksAgree` | `deprecated/ekiosk-src/modules/GetServices.cpp:105-426` | two walks whose elements agree on the changing fields agree on them, and on acceptance, for every tree |
| `ConfigModel.FullAfterHash` | `deprecated/ekiosk-src/modules/GetServices.cpp:18-103` | a full parse after an accepted hash walk of the same document reads exactly what a full parse from nothing reads |
| `ConfigModel.RefusedIff` | `deprecated/ekiosk-src/modules/GetServices.cpp:105-140` | either walk refuses a document if and only if a rejecting result code is anywhere in it |
| `ConfigModel.FastPathReadsTheSame` | `deprecated/ekiosk-src/modules/GetServices.cpp:641-716` | when the hash matches, the fast path reads all fifteen fields as the full parse does if and only if the static fields of the two documents are the same |
| `ConfigModel.HandleRefines` | `deprecated/ekiosk-src/modules/GetServices.cpp:18-103` | one response is answered as without a cache, and the stored row stays one that was written from a response that was not refused |
| `ConfigModel.CacheIsInvisible` | `deprecated/ekiosk-src/modules/GetServices.cpp:18-103` | after any responses the next is answered as if nothing were stored, provided equal hashes of documents that are not refused mean equal static fields |
| `Codec.XorInPlace` | `deprecated/ekiosk-src/other/utils.cpp:5-7` | the loop replaces each byte of the array by its exclusive or with the key byte |
| `Codec.EncodeStr` | `deprecated/ekiosk-src/other/utils.cpp:3-10` | the method with its loop computes the function whose round trip is proved below |
| `Codec.DecodeStr` | `deprecated/ekiosk-src/other/utils.cpp:12-19` | the method with its loop computes the function that undoes it |
| `CodecModel.Utf8RoundTrip` | `deprecated/ekiosk-src/other/utils.cpp:4-18` | every well-formed string comes back from UTF-8 except for one byte-order mark in front |
| `CodecModel.XorTwice` | `deprecated/ekiosk-src/other/utils.cpp:5-7` | the exclusive or with a key byte undoes itself |
| `CodecModel.Base64RoundTrip` | `deprecated/ekiosk-src/other/utils.cpp:9-13` | any bytes come back from Base64, with none, one or two pads (section 4 of RFC 4648) |
| `CodecModel.Base64Shape` | `deprecated/ekiosk-src/other/utils.cpp:9` | the length is four for each three bytes begun, in the alphabet, with pads only at the end |
| `CodecModel.CodecReturns` | `deprecated/ekiosk-src/other/utils.cpp:3-19` | what encoding and decoding return, for every string and any two keys with the same low byte |
| `CodecModel.CodecRoundTrip` | `deprecated/ekiosk-src/other/utils.cpp:3-19` | the round trip holds if and only if the string does not begin with a byte-order mark |
| `CodecModel.MarkIsLost` | `deprecated/ekiosk-src/other/utils.cpp:18` | a string that does not come back |
| `CodecBits.KeyFlipsBits` | `deprecated/ekiosk-src/other/utils.cpp:5-9` | the bytes behind the encoded text are the string's bytes with exactly the bits of the key's low byte flipped |
| `CodecBits.Base64IsNumber` | `deprecated/ekiosk-src/other/utils.cpp:9` | each four characters, read as a number in the 64-letter alphabet, are the number their three bytes make (section 4 of RFC 4648) |
| `CodecBits.PadIff` | `deprecated/ekiosk-src/other/utils.cpp:9` | a character is a pad if and only if no bit is left for it |
| `CodecBits.ValueIs` | `deprecated/ekiosk-src/other/utils.cpp:9-13` | the alphabet is that of section 4 of RFC 4648, for encoding and decoding |
| `CodecBits.Utf8IsNumber` | `deprecated/ekiosk-src/other/utils.cpp:4` | a character's bytes are as few as its number needs, with the markers of section 3 of RFC 3629, and hold its bits |
| `CodecBits.DecodesIff` | `deprecated/ekiosk-src/other/utils.cpp:18` | bytes are read as the character whose bytes they begin with, and if there is none, one of them is replaced |
| `IniHandlers.ConfigParser.AddSection` | `scripts/merge_ini.py:56-57` | a new section goes to the end, empty; a known one is an error |
| `IniHandlers.ConfigParser.Set` | `scripts/merge_ini.py:58-59` | a key of a known section is set in place or appended; an unknown section is an error |
| `IniHandlers.ConfigParser.SetAll` | `scripts/merge_ini.py:56-59` | the inner loop overlays the section's items |
| `IniHandlers.ConfigParser.MergeIni` | `scripts/merge_ini.py:39-63` | the loops compute the merge; without a platform file the base stays |
| `IniModel.PlatformPrecedence` | `scripts/merge_ini.py:54-59` | every key of every section reads as the platform gives it, or as the base does where the platform is silent |
| `IniModel.PlatformValue` | `scripts/merge_ini.py:58` | what a platform section gives: its own value, or else its file's default |
| `IniModel.OrderIsKept` | `scripts/merge_ini.py:54-59` | sections and keys of the base keep their order and new ones follow in the platform's order |
| `IniModel.OtherSectionsStay` | `scripts/merge_ini.py:54-59` | sections the platform does not mention, and the base's defaults, are unchanged |
| `IniModel.MergeIsIdempotent` | `scripts/merge_ini.py:54-59` | merging the same platform again changes nothing |
| `IniModel.MergingAssociates` | `scripts/merge_ini.py:54-59` | merging ordered sections is associative |
| `IniModel.MergeAssociatesIff` | `scripts/merge_ini.py:54-59` | with default sections, merging two platforms in turn is merging their merge, into every base, if and only if the items of each section that only the last one has begin with the middle one's default keys |
| `IniModel.MergeAssociates` | `scripts/merge_ini.py:54-59` | in particular whenever the middle file has no default section |

## Left out

Watchdog.

- A module without a process object is not told from one whose process is not running.
- Each handler reads the clock once; the program reads it several times within one pass.
- Message parsing starts from the sender, the command and the target; start parameters are not kept.
- `closeAction`'s reload, immediate or after five minutes, is an event of its own, and so is the delayed
  auto-start; processes left over from before a reload are not followed.
- The notification that a killed module has closed, sent while the kill waits, is not in the trace; a module
  that finishes by itself announces it.
- The check timer is one flag; memory checks, forbidden processes, screen protection and the splash screen
  are not modelled.
- WatchClaims.TwoStrikes: the two strikes may lie before and after a restart of the process, as in the code,
  which does not clear the counter on a start.

Commands.

- What the actions themselves do, and the bound on reboots, which start-up resets.
- Database updates succeed. How often and when a confirmation request is repeated is an input.

Ledger and cash.

- SQL text, quoting and failing statements; the columns that only pass through (account, service, ratios, route).
- The statement that fetches the denomination strings names a column that the schema spells differently
  (`deprecated/ekiosk-src/modules/CollectDaemons.cpp:454`,
  `deprecated/ekiosk-src/db/sqlconnection.h:42`); the tally starts from the strings.
- Money that bypassed the stacker: its update puts an unquoted id into its statement.
- The first encashment request, which passes an id that is never set on that path; receipts and XML text.
- The range of a cleaning is an input; the code takes it from the calendar, from 1 January of last year to twenty
  days ago (`deprecated/ekiosk-src/mainwindow.cpp:4313-4316`).
- CashWriter.WrittenTally: nominals of a million and more, which are written with an exponent, and zero are not covered.
- Sums are integers: the overflow of face times count and the rounding of doubles are not modelled.
- The blocking of the terminal after unsent payments and the delayed restart.

Configuration.

- Banners, provider rows and categories; the columns of the stored row that no walk reads back.
- The document is a tree of elements and texts; XML parsing is not modelled.
- CashModel.ReadsBackIffFits: the document is its list of slots, for the same reason.

Codec and INI.

- CodecModel.Utf8RoundTrip: strings are sequences of Unicode scalar values; unpaired surrogates are not strings here.
- Interpolation of `%` in INI values, and parsing and writing of INI files. The script's own description promises
  to keep comments as far as possible and to copy the base when the platform file is empty; the code drops
  comments and merges an empty file, and the model follows the code.

Not modelled at all: the updater, HTTP and modem code, device managers, payment plug-ins seen only as headers,
and the user interface.
