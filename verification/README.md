# Turbine governor: verified model

The governor is two programs. The regulator samples the field over EtherCAT, runs the control and
the alarms, and serves a Modbus register map. The HMI polls that map as a Modbus master, shows it,
and sends the operator's writes, forces and button presses back. This project models the protocols
between the two and the data that crosses from one to the other, and proves what they keep.

| part | files |
|---|---|
| write side of the HMI: buttons, retry queue, driver queue | WriteProtocol, ButtonSafety, ButtonResults, OperatorRequests |
| read side of the HMI: read cycle, change set, screens | ReadProtocol, ReadResults, ReadAnswers, ReadInterleaved, ReadCycle, ReadCounterexamples |
| retry loops over an unreliable link | Transmission |
| the HMI's objects, updated in place | MasterRuns, MasterDecode, MasterDriver, DriverTurns, HmiGuarantees |
| register map, encoders and decoders | ModbusMap, Codec, SlaveBlocks, SlaveRegisters |
| connection table of the slave | SlaveServer |
| across both programs | EndToEnd, ButtonCell, RegulatorImage |
| alarms and control | Alarms, AlarmsWidget, RegulatorControl |
| EtherCAT driver: errors, process image, analog scaling | FieldErrors, ProcessImage, AnalogScaling |

How it is built. The HMI's image and driver are written twice: as two transition systems whose
steps are the critical sections (`WriteProtocol`, `ReadProtocol`), and as the classes `RegImage` and
`ModbusMasterDrv` with the source's fields, loops and branches (`MasterDriver`). Each method of the
classes is proved to be a run of the transition systems and its contract says which run;
`HmiGuarantees` carries the theorems about runs over to the objects. The slave's map is four arrays
proved to refine a table of records. The slave driver and the EtherCAT driver are each split in two
classes of the source's name: registers and connections, errors and process image. Answers of the
link, new descriptors, slave states, field samples and the clock are inputs, quantified over.

Results that are about a limit of the code, each with its exact condition:

- A retry loop of several parts reports success exactly when at most one call failed; with two
  failures everything is acknowledged and the loop still reports an error.
- A read marks the change before it stores the value: over every run, a change is lost exactly when it
  is delivered between the two and the new value looks different from the old one.
- Every state has exactly the button tokens its tables want if and only if no plain write times out
  at the address of a button being pressed; a run is given in which a release is never sent.
- A button at rest keeps its release in the regulator's cell exactly when the last of its requests to
  arrive carries that value: a press reported as failed may have arrived all the same, and a run is
  given in which the cell keeps it.
- A request to force that fails leaves the variable forced to its old forced value exactly when its
  flag has arrived and its value has not; the link and its calls are given.
- The screens keep the quality of a lost link exactly when the last delivery fell in that state and
  no change has been marked since; a run is given in which the link is long up again.
- The end of every read cycle with variables is reported as a failure of the link, so each cycle is
  read over a new connection.
- The eight-bit index of the slave is harmless exactly when the map fits in 255 channels, or has no
  read-only words, or no variables.
- The first full update is announced exactly when all addresses asked for have been shown and none
  was asked for twice, as a field and as a Modbus variable; a run is given in which it is not.
- A byte field of the process image reads back the value modulo its width on a little-endian host;
  on a big-endian host it carries the high bytes instead.
- A value read back after an analog write stays in the engineering range, for every value, exactly
  when the hardware range begins at a whole number.

`dafny verify dfyconfig.toml` verifies the whole project.

## Model

| member | source | states |
|---|---|---|
| ButtonSafety.StepKeeps | HMI/src/RegImage.cpp:207-256 | every step of the image or the driver, other than the time-out of a plain write on a button being pressed, keeps: a button in one phase table at most, exactly one live token with the table's value while it is in one, first-phase tokens in the driver's queue, each accepted request pending or answered once |
| ButtonSafety.RunKeeps | HMI/src/RegImage.cpp:117-126 | the same for any interleaving of presses, pumps, acknowledgements, time-outs, link events, stop and start |
| ButtonSafety.TokensPress | HMI/src/RegImage.cpp:207-219 | a press taken or refused leaves exactly the tokens the tables want |
| ButtonSafety.TokensSuccess | HMI/src/RegImage.cpp:241-256 | an acknowledgement turns a first phase into a second with the opposite value waiting, or ends a second |
| ButtonSafety.TokensTimeOut | HMI/src/RegImage.cpp:221-239 | a time-out ends a first phase, and puts a second phase's token back in the retry queue |
| ButtonSafety.TokensPump | HMI/src/RegImage.cpp:117-126 | a pump moves the front token to the driver's queue or leaves everything |
| ButtonResults.LegalLife | HMI/src/RegImage.cpp:221-256 | in every observed history of a button the acknowledged values are pairs (v, not v) with one trailing v in phase two, and presses = releases + reported errors + presses in flight |
| ButtonResults.ButtonRuns | HMI/src/RegImage.cpp:207-256 | over every run in which no plain write times out on a button being pressed, for every address: phases exclusive, one live token, values paired, presses accounted for by releases acknowledged, their own error reports and presses in flight, so that no release is dropped or reported as failed |
| ButtonResults.AnsweredOnce | HMI/src/MasterDriver/ModbusMasterDrv.cpp:333-377 | over every run whatsoever: accepted = pending + answered as multisets; unforced time-outs are past the request's own limit; a stopped or closed driver has nothing pending and no connection |
| ButtonResults.StepIsSafeIff | HMI/src/RegImage.cpp:221-239 | a step keeps the token discipline exactly when it is not the time-out of a plain write at the address of a button being pressed |
| ButtonResults.TokensKeptIff | HMI/src/RegImage.cpp:221-239 | over whole runs from the start: every state has exactly the tokens its tables want if and only if no plain write ever times out on a button being pressed |
| ButtonResults.RespectfulRunsAreHarmless | HMI/src/RegImage.cpp:195-219 | screens that never write a button's address plainly make only such runs |
| ButtonResults.PlainWriteLosesRelease | HMI/src/RegImage.cpp:195-199 | a reachable run in which such a time-out leaves a press acknowledged and its release never sent |
| OperatorRequests.OperationsAdd | HMI/src/RegImage.cpp:195-219 | which one request a write, a force or a press adds to the queue, field by field, and when it adds none |
| OperatorRequests.PumpAdds | HMI/src/RegImage.cpp:117-126 | a pump adds a request with the value the button's second table holds |
| OperatorRequests.ForceReaches | HMI/src/RegImage.cpp:201-205 | the request an operator's force made, once acknowledged, is in the regulator's record: the flag, the value if it forces, and nothing else anywhere |
| OperatorRequests.WriteReaches | HMI/src/RegImage.cpp:195-199 | the request an operator's write made, once acknowledged, is the value of the record, and nothing else changes |
| OperatorRequests.TimeOutsAreReported | HMI/src/RegImage.cpp:221-239 | over every harmless run each plain request that times out at a known address is reported once, by its variable's number, and every report follows such a time-out |
| ButtonResults.DrainStep | HMI/src/RegImage.cpp:241-256 | every acknowledgement or pump takes exactly one off the measure (three per first phase, two per waiting token, one per queued request); faults, disconnections and connections leave it |
| ButtonResults.QuietIsAtRest | HMI/src/RegImage.cpp:117-126 | with the link up, an acknowledgement or a pump is possible exactly until every button is at rest |
| ButtonResults.DrainRuns | HMI/src/MasterDriver/ModbusMasterDrv.cpp:333-363 | however acknowledgements and pumps interleave with faults and reconnections, there are never more of them than the measure, and everything is at rest exactly when there have been as many |
| ButtonResults.DrainExists | HMI/src/MasterDriver/ModbusMasterDrv.cpp:129-137 | from every state of a started driver, its link up or not, such a run to rest exists |
| ButtonCell.CellHoldsLastArrived | HMI/src/MasterDriver/ModbusMasterDrv.cpp:333-363 | over every run of both programs, whatever calls of its transmissions the link loses or brings without a reply: the regulator's cell of a button holds the value of the last of its requests to have arrived, acknowledged or not; nothing is acknowledged that has not arrived |
| ButtonCell.ReleaseStaysIff | HMI/src/RegImage.cpp:207-256 | a button at rest that has ever been acknowledged keeps its release in the regulator's cell if and only if the last of its requests to arrive carries that value |
| ButtonCell.CellHoldsRelease | HMI/src/RegImage.cpp:207-256 | the case the HMI can tell: once a button has come to rest by an acknowledged release and no press error since, the cell holds the release of the last pair |
| ButtonCell.FailedPressMayStay | HMI/src/RegImage.cpp:221-239 | a run from the start in which a press reported as failed has arrived: everything is at rest and the cell holds the press |
| ButtonCell.MoveKeeps | HMI/src/MasterDriver/ModbusMasterDrv.cpp:333-363 | each step of either program keeps that, transmissions that fail included |
| ReadResults.UnchangedLooksTheSame | HMI/src/MasterDriver/ModbusMasterDrv.cpp:237-247 | an answer the driver does not mark as a change shows as the cache already did, NaN and signed zeros included |
| ReadResults.StepLosesNothing | HMI/src/RegImage.cpp:85-115 | each read, poll, delivery or link event keeps: every variable read is waiting, or shown in value and forcing as cached and in quality as a delivery in the driver's state at the last one would show it |
| ReadResults.NothingIsLost | HMI/src/MasterDriver/ModbusMasterDrv.cpp:519-522 | the same over every run |
| ReadResults.ScreensAreCurrent | HMI/src/RegImage.cpp:90-114 | over every run, for a variable read and not waiting: the screens show the values and the forcing cached; they show the cached quality too if and only if the last delivery did not fall in the state of a lost link on a variable of another quality |
| ReadResults.DeliveryShows | HMI/src/RegImage.cpp:92-113 | what a delivery puts on the screens, kind by kind: the cached word, the cached value or the cached variable, with the quality of a lost link in that state and the cached one otherwise; nothing of what is not known or not read |
| ReadAnswers.AnswerIsCached | HMI/src/MasterDriver/ModbusMasterDrv.cpp:237-292 | every field of an answer reaches the cache of its variable, and no other entry changes |
| ReadAnswers.MarkedIff | HMI/src/MasterDriver/ModbusMasterDrv.cpp:237-292 | a read marks its variable exactly when it is the first or the answer differs from the cache |
| ReadAnswers.DifferIff | HMI/src/MasterDriver/ModbusMasterDrv.cpp:237-237 | floats differ when one is a NaN or the bits differ, the two zeros apart |
| ReadAnswers.CacheHoldsLastAnswer | HMI/src/MasterDriver/ModbusMasterDrv.cpp:203-292 | over every run and for every address, the cache holds the last answer the link gave since the driver was opened |
| ReadAnswers.ScreensShowLastAnswer | HMI/src/RegImage.cpp:90-114 | over every run from the start, of an address that is not waiting the screens show the last answer the link gave, the quality of a lost link apart |
| ReadResults.ShowsCacheIff | HMI/src/MasterDriver/ModbusMasterDrv.cpp:438-465 | the same of any state in which the screens are up to date |
| ReadCounterexamples.LostLinkStaysOnScreen | HMI/src/MasterDriver/ModbusMasterDrv.cpp:438-465 | a run from the start that ends running, connected, with the variable read again unchanged and nothing waiting, its cached quality good and the one on the screen that of a lost link |
| ReadResults.PollInBetweenIsSafeIff | HMI/src/MasterDriver/ModbusMasterDrv.cpp:237-247 | a poll and delivery between marking a change and storing it loses nothing exactly when the variable is not shown or the new answer is shown as the old one was, quality included |
| ReadInterleaved.HalfStepIsSafeIff | HMI/src/MasterDriver/ModbusMasterDrv.cpp:237-247 | with each read in the two steps the source locks: a step keeps the screens complete exactly when it is not the storing of an answer whose change has been delivered meanwhile and that looks different |
| ReadInterleaved.InterleavedLosslessIff | HMI/src/MasterDriver/ModbusMasterDrv.cpp:519-522 | over every run from the start with polls and deliveries anywhere: every state has each variable read waiting or on the screens if and only if the run has no such store |
| ReadInterleaved.UninterruptedIsSafe | HMI/src/MasterDriver/ModbusMasterDrv.cpp:262-292 | the two steps with nothing in between are safe, and are the one step of the protocol |
| ReadCounterexamples.PollInBetweenLosesAChange | HMI/src/MasterDriver/ModbusMasterDrv.cpp:237-247 | a run from the start to a state in which such a poll loses a change of value |
| ReadCycle.StepFollows | HMI/src/MasterDriver/ModbusMasterDrv.cpp:180-201 | every step keeps the read log in the order of the tables, the iterators at its position, and the link made since the last wrap |
| ReadCycle.EveryCycleReadsAllOnce | HMI/src/MasterDriver/ModbusMasterDrv.cpp:93-201 | over every run, in the session an init begins: two consecutive wraps enclose one successful read of each variable init took from those asked for, fields first, and a new connection |
| ReadCycle.FullUpdateAnnouncedIff | HMI/src/RegImage.cpp:128-137 | the full update is announced at most once, and exactly when every address asked for has been delivered and no address was asked for twice |
| ReadCounterexamples.AskedTwiceIsNeverAnnounced | HMI/src/RegImage.cpp:128-137 | a run from the start in which an address asked for as a field and as a Modbus variable is read both ways and shown, and the full update is never announced |
| Transmission.ReportedIff | HMI/src/MasterDriver/ModbusMasterDrv.cpp:344-358 | a loop of parts reports success exactly when all were acknowledged with at most one failed call; never more than two calls beyond the parts |
| Transmission.AllAcknowledgedYetFailedIff | HMI/src/MasterDriver/ModbusMasterDrv.cpp:212-232 | said of the link: success is reported exactly when at most one of the first parts + 1 calls goes unanswered; everything is acknowledged and an error reported exactly when two of the first parts + 2 do |
| Transmission.LateAcknowledgement | HMI/src/MasterDriver/ModbusMasterDrv.cpp:355-358 | a concrete link on which a write is acknowledged in the third round and reported as failed |
| Transmission.ReadFieldParts | HMI/src/MasterDriver/ModbusMasterDrv.cpp:203-236 | the four-flag loop sends the parts in order, repeats none that was acknowledged, and collects each as the slave held it when acknowledged |
| Transmission.ReadOnePart | HMI/src/MasterDriver/ModbusMasterDrv.cpp:254-261 | the one-part loop succeeds exactly when one of three calls is answered |
| Transmission.SendWrite | HMI/src/MasterDriver/ModbusMasterDrv.cpp:337-358 | the write loop sends the force flag before the value, nothing twice once acknowledged, and reports as the theorem above says |
| Transmission.SteadySlave | HMI/src/MasterDriver/ModbusMasterDrv.cpp:213-224 | if the slave stood still, the parts collected are the cells of that variable's record |
| MasterDecode.GetInt | HMI/src/MasterDriver/ModbusMasterDrv.cpp:309-321 | the byte loop decodes the word the registers hold |
| MasterDecode.GetTimeS | HMI/src/MasterDriver/ModbusMasterDrv.cpp:297-307 | the byte loop decodes the time stamp the registers hold |
| MasterDecode.GetQState | HMI/src/MasterDriver/ModbusMasterDrv.cpp:323-331 | the bit loop decodes the quality state |
| MasterDriver.ModbusMasterDrv.Write | HMI/src/MasterDriver/ModbusMasterDrv.cpp:478-496 | accepts exactly the channels of variables while neither stopped nor closed; the queue gains the request and nothing else changes |
| MasterDriver.ModbusMasterDrv.Force | HMI/src/MasterDriver/ModbusMasterDrv.cpp:498-517 | the same with the force flag |
| MasterDriver.ModbusMasterDrv.CleanWriteRequests | HMI/src/MasterDriver/ModbusMasterDrv.cpp:365-377 | a run of time-outs taken from the head of the queue; ends with the queue empty or its head within its own limit |
| MasterDriver.ModbusMasterDrv.TopRequest | HMI/src/MasterDriver/ModbusMasterDrv.cpp:336-336 | the head of the queue is the first of the requests with the largest time-out |
| MasterDriver.ModbusMasterDrv.ProcessNextWrite | HMI/src/MasterDriver/ModbusMasterDrv.cpp:333-363 | expires what is due; then the head is taken off and reported as done exactly when the link acknowledged it in time, and stays otherwise |
| MasterDriver.ModbusMasterDrv.ReadField | HMI/src/MasterDriver/ModbusMasterDrv.cpp:203-236 | the record decoded from parts each held by the slave when acknowledged |
| MasterDriver.ModbusMasterDrv.TakeField | HMI/src/MasterDriver/ModbusMasterDrv.cpp:237-247 | marks the change, then stores every field of the answer; no other entry changes |
| MasterDriver.ModbusMasterDrv.ReadValue | HMI/src/MasterDriver/ModbusMasterDrv.cpp:251-294 | a word or a value as the slave held it |
| MasterDriver.ModbusMasterDrv.TakeWord | HMI/src/MasterDriver/ModbusMasterDrv.cpp:262-271 | marks a changed word, then caches the word read with the time and a good quality; no other entry changes |
| MasterDriver.ModbusMasterDrv.TakeFloat | HMI/src/MasterDriver/ModbusMasterDrv.cpp:283-292 | marks a changed value, then caches the value read with the time and a good quality; no other entry changes |
| MasterDriver.ModbusMasterDrv.ProcessNextRead | HMI/src/MasterDriver/ModbusMasterDrv.cpp:180-201 | the next variable is read, cached and passed exactly when the link lets it through, else nothing changes; the end of a cycle with variables returns false, and the next one waits ten milliseconds |
| MasterDriver.ModbusMasterDrv.ReadNextField | HMI/src/MasterDriver/ModbusMasterDrv.cpp:181-186 | the next field variable is read, cached and passed exactly when the link lets it through |
| MasterDriver.ModbusMasterDrv.ReadNextValue | HMI/src/MasterDriver/ModbusMasterDrv.cpp:187-192 | the same for the next Modbus variable |
| MasterDriver.ModbusMasterDrv.CreateConnection | HMI/src/MasterDriver/ModbusMasterDrv.cpp:380-390 | connected afterwards exactly when it was or the link could be made |
| MasterDriver.ModbusMasterDrv.Taken | HMI/src/MasterDriver/ModbusMasterDrv.cpp:408-416 | the table holds exactly the addresses in the given channels, each once |
| MasterDriver.ModbusMasterDrv.Init | HMI/src/MasterDriver/ModbusMasterDrv.cpp:392-436 | succeeds exactly on a closed driver with a readable file, a variable and a context; tables, iterators and state as it leaves them; nothing changed otherwise |
| MasterDriver.ModbusMasterDrv.Start | HMI/src/MasterDriver/ModbusMasterDrv.cpp:69-80 | a stopped driver runs, with both cycles due and its clock set; false exactly when closed |
| MasterDriver.ModbusMasterDrv.Stop | HMI/src/MasterDriver/ModbusMasterDrv.cpp:82-91 | times every pending request out, closes the link, keeps the read cycle where it is |
| MasterDriver.ModbusMasterDrv.Close | HMI/src/MasterDriver/ModbusMasterDrv.cpp:46-67 | times every pending request out, closes the link, forgets the tables |
| MasterDriver.ModbusMasterDrv.Tick | HMI/src/MasterDriver/ModbusMasterDrv.cpp:109-127 | a cycle is under way exactly if it was or its delay has passed |
| MasterDriver.ModbusMasterDrv.WriteTurn | HMI/src/MasterDriver/ModbusMasterDrv.cpp:129-143 | a write turn, and the fault exactly when the link failed it |
| MasterDriver.ModbusMasterDrv.ReadTurn | HMI/src/MasterDriver/ModbusMasterDrv.cpp:138-143 | a read turn with a truthful answer, a wrap, or the fault exactly when the link failed it |
| MasterDriver.ModbusMasterDrv.ConnectTurn | HMI/src/MasterDriver/ModbusMasterDrv.cpp:103-107 | a running driver without a link makes it or faults |
| MasterDriver.ModbusMasterDrv.RecoverTurn | HMI/src/MasterDriver/ModbusMasterDrv.cpp:146-164 | closes a broken link, makes it again, or only lets requests expire |
| MasterDriver.ModbusMasterDrv.RunningTurn | HMI/src/MasterDriver/ModbusMasterDrv.cpp:109-143 | with the link up: writes before reads, each as its own turn says |
| MasterDriver.ModbusMasterDrv.DriverLoop | HMI/src/MasterDriver/ModbusMasterDrv.cpp:93-170 | every turn of the loop is a run of both transition systems, settled by state, clock and link |
| DriverTurns.Turns | HMI/src/MasterDriver/ModbusMasterDrv.cpp:93-170 | over a link that answers, once the write cycle is due: n turns of the loop leave at most pending - n requests, so that as many turns as requests empty the queue, each by an acknowledgement or a time-out |
| DriverTurns.DoneAnswers | HMI/src/MasterDriver/ModbusMasterDrv.cpp:333-363 | a write turn over such a link answers a request at least, or leaves none |
| MasterDriver.ModbusMasterDrv.GetChangedVars | HMI/src/MasterDriver/ModbusMasterDrv.cpp:519-522 | hands the change set over and empties it |
| MasterDriver.ModbusMasterDrv.ReadWord | HMI/src/MasterDriver/ModbusMasterDrv.cpp:467-476 | the cached word of a Modbus address, and none for any other |
| MasterDriver.ModbusMasterDrv.ReadImage | HMI/src/MasterDriver/ModbusMasterDrv.cpp:438-465 | the cached variable, its quality replaced while communication is lost |
| MasterDriver.RegImage.DriverWriteTimeOut | HMI/src/RegImage.cpp:221-239 | the time-out step of the protocol |
| MasterDriver.RegImage.DriverWriteSuccess | HMI/src/RegImage.cpp:241-256 | the success step of the protocol |
| MasterDriver.RegImage.WriteVar | HMI/src/RegImage.cpp:195-199 | when accepted the queue gains one plain request with that value for the address of the number, and nothing otherwise |
| MasterDriver.RegImage.ForceVar | HMI/src/RegImage.cpp:201-205 | when accepted the queue gains one request to force with that value and that force bit, and nothing otherwise |
| MasterDriver.RegImage.WriteVarAsButton | HMI/src/RegImage.cpp:207-219 | a press is taken exactly when the button is at rest and the driver accepts: the queue gains one request of 1 or 0 and the first table the value |
| MasterDriver.RegImage.ProcessUncompletedWrites | HMI/src/RegImage.cpp:117-126 | the loop ends; it is a run of pumps, and leaves the queue empty or its front refused |
| MasterDriver.RegImage.NewVarUpdated | HMI/src/RegImage.cpp:128-137 | the counting step of the full-update announcement |
| MasterDriver.RegImage.Deliver | HMI/src/RegImage.cpp:92-113 | afterwards the screens show the cached word, value or variable of a known address, with the quality of a lost link only in that state; of any other nothing changes |
| MasterDriver.RegImage.UpdateImage | HMI/src/RegImage.cpp:85-115 | while the driver runs: waiting releases are written, every address marked before is on the screens as cached, and so are the values and the forcing of everything read so far, each quality as at its last delivery |
| MasterDriver.RegImage.Start | HMI/src/RegImage.cpp:77-79 | starts a stopped driver, and changes nothing else |
| MasterDriver.RegImage.Init | HMI/src/RegImage.cpp:23-75 | opens the driver on the variables and the regulator's words, which are among the addresses read, and starts counting the first full update |
| HmiGuarantees.StillReached | HMI/src/RegImage.cpp:85-126 | calls that are runs compose, so the theorems hold for objects used in any order |
| HmiGuarantees.ButtonsOfTheImage | HMI/src/RegImage.cpp:207-256 | phases, the one live token, pairs and press accounting, said of the objects' fields |
| HmiGuarantees.RequestsOfTheImage | HMI/src/MasterDriver/ModbusMasterDrv.cpp:333-377 | one answer for each request, and nothing held when stopped or closed, said of the objects' fields after any calls |
| HmiGuarantees.ScreensOfTheImage | HMI/src/RegImage.cpp:85-115 | no change is lost, and when a shown quality is not the cached one, said of the objects' fields |
| HmiGuarantees.ReadsOfTheDriver | HMI/src/MasterDriver/ModbusMasterDrv.cpp:180-201 | the read cycle, said of the driver's fields |
| ModbusMap.WrapIsHarmlessIff | Regulator/src/SlaveDriver/ModbusSlaveDrv.cpp:273-305 | the slave takes exactly the channels of variables if and only if the map fits in 255 channels, has no words, or no variables |
| ModbusMap.IndexOfVariable | Regulator/src/SlaveDriver/ModbusSlaveDrv.cpp:274-276 | for a variable the eight-bit index is the plain difference |
| Codec.DecodeEncode | Regulator/src/SlaveDriver/ModbusSlaveDrv.cpp:307-344 | encoders and decoders undo each other between hosts of one byte order; between different orders every byte pair is exchanged |
| Codec.IntRoundTrip | HMI/src/MasterDriver/ModbusMasterDrv.cpp:309-321 | a 32-bit word survives exactly when the hosts agree or its byte pairs are equal |
| Codec.TimeRoundTrip | HMI/src/MasterDriver/ModbusMasterDrv.cpp:297-307 | every 64-bit time stamp survives |
| Codec.FloatRoundTrip | Regulator/src/SlaveDriver/ModbusSlaveDrv.cpp:358-371 | every float pattern survives its two registers |
| Codec.QuRoundTrip | HMI/src/MasterDriver/ModbusMasterDrv.cpp:323-331 | every quality state survives its two bits |
| SlaveBlocks.SetsValue | Regulator/src/SlaveDriver/ModbusSlaveDrv.cpp:368-371 | writing a value's cells updates that field of that record and nothing decoded elsewhere |
| SlaveBlocks.SetsForcedValue | HMI/src/MasterDriver/ModbusMasterDrv.cpp:337-350 | the same for a forced value |
| SlaveBlocks.SetsAcross | Regulator/src/SlaveDriver/ModbusSlaveDrv.cpp:181-188 | two registers written across two floats: each float keeps the half that was not written, and no other field changes |
| SlaveBlocks.StaysElsewhere | Regulator/src/SlaveDriver/ModbusSlaveDrv.cpp:181-188 | and no other record |
| SlaveBlocks.SetsForced | Regulator/src/SlaveDriver/ModbusSlaveDrv.cpp:347-356 | the same for the forced flag |
| SlaveBlocks.SetsQuality | Regulator/src/SlaveDriver/ModbusSlaveDrv.cpp:323-332 | the same for the quality |
| SlaveBlocks.SetsTime | Regulator/src/SlaveDriver/ModbusSlaveDrv.cpp:334-344 | the same for the time |
| SlaveBlocks.SetsWord | Regulator/src/SlaveDriver/ModbusSlaveDrv.cpp:307-321 | the same for a read-only word |
| SlaveBlocks.Publishes | Regulator/src/SlaveDriver/ModbusSlaveDrv.cpp:301-303 | the three writes of a publication are one update of one record |
| SlaveBlocks.MasterReadsRecord | HMI/src/MasterDriver/ModbusMasterDrv.cpp:213-224 | the addresses the master computes hit exactly the cells of the variable's record, inside the blocks |
| SlaveBlocks.MasterReadsWord | HMI/src/MasterDriver/ModbusMasterDrv.cpp:252-257 | the same for a word |
| SlaveBlocks.MasterReadsValue | HMI/src/MasterDriver/ModbusMasterDrv.cpp:273-278 | the same for a value |
| SlaveRegisters.ModbusSlaveDrv.constructor | Regulator/src/SlaveDriver/ModbusSlaveDrv.cpp:243-244 | the four blocks have the sizes the records need |
| SlaveRegisters.ModbusSlaveDrv.SetQState | Regulator/src/SlaveDriver/ModbusSlaveDrv.cpp:323-332 | the mask loop writes the two bits of the state |
| SlaveRegisters.ModbusSlaveDrv.SetTimeS | Regulator/src/SlaveDriver/ModbusSlaveDrv.cpp:334-344 | the byte loop writes the encoded time |
| SlaveRegisters.ModbusSlaveDrv.WriteRO | Regulator/src/SlaveDriver/ModbusSlaveDrv.cpp:307-321 | updates one word of the table, or refuses and changes nothing |
| SlaveRegisters.ModbusSlaveDrv.Read | Regulator/src/SlaveDriver/ModbusSlaveDrv.cpp:273-283 | gives the record's value and a quality by the driver's state, or refuses and changes nothing |
| SlaveRegisters.ModbusSlaveDrv.Write | Regulator/src/SlaveDriver/ModbusSlaveDrv.cpp:285-291 | updates one record's value, or refuses and changes nothing |
| SlaveRegisters.ModbusSlaveDrv.UpdateFieldVar | Regulator/src/SlaveDriver/ModbusSlaveDrv.cpp:293-305 | takes the record's forcing and publishes value, quality and time in one record, the quality its own unless it is forced |
| SlaveRegisters.ModbusSlaveDrv.ServeWriteBit | Regulator/src/SlaveDriver/ModbusSlaveDrv.cpp:181-188 | a coil written by address is one record's forced flag |
| SlaveRegisters.ModbusSlaveDrv.ServeWriteFloat | Regulator/src/SlaveDriver/ModbusSlaveDrv.cpp:181-188 | two registers written by any address: one record's value or forced value at an even place, halves of two fields at an odd one, or a refusal |
| SlaveServer.SweepSound | Regulator/src/SlaveDriver/ModbusSlaveDrv.cpp:161-199 | a pass keeps the server watched, every descriptor at most the bound, the counter equal to the clients and at most the maximum, and closes exactly the clients whose service fails, once |
| SlaveServer.SweepBooks | Regulator/src/SlaveDriver/ModbusSlaveDrv.cpp:161-199 | every descriptor obtained stays either watched or closed, once |
| SlaveServer.SweepClients | Regulator/src/SlaveDriver/ModbusSlaveDrv.cpp:161-199 | after a pass the clients are those that did not fail and the one taken in |
| SlaveServer.ClientsAreServed | Regulator/src/SlaveDriver/ModbusSlaveDrv.cpp:178-197 | client by client: one that is gone or whose first three replies fail is closed once and watched no longer, any other stays and is not closed; never more than five |
| SlaveServer.MasterIsTakenIn | Regulator/src/SlaveDriver/ModbusSlaveDrv.cpp:166-177 | a waiting master is taken in whenever fewer than five are connected |
| SlaveServer.ModbusSlaveDrv.ProcessPendingRequests | Regulator/src/SlaveDriver/ModbusSlaveDrv.cpp:161-199 | the loop, whose bound moves, ends and does that pass |
| SlaveServer.ModbusSlaveDrv.Serve | Regulator/src/SlaveDriver/ModbusSlaveDrv.cpp:178-189 | a client is dropped exactly when its request is -1, or is positive and its first three replies fail |
| SlaveServer.ModbusSlaveDrv.CreateServerSocket | Regulator/src/SlaveDriver/ModbusSlaveDrv.cpp:201-215 | opens the table with the server alone, or leaves it |
| SlaveServer.ModbusSlaveDrv.CloseSockets | Regulator/src/SlaveDriver/ModbusSlaveDrv.cpp:144-159 | closes every open descriptor once, the server last, and nothing obtained stays open |
| EndToEnd.WriteTakesEffect | HMI/src/MasterDriver/ModbusMasterDrv.cpp:333-363 | whatever calls arrive, some of them twice: only the request's own record changes, in the fields whose part has arrived; a forced value never arrives without its flag; and a request the driver takes for done is there in full |
| EndToEnd.HalfForcedIff | HMI/src/MasterDriver/ModbusMasterDrv.cpp:337-350 | a variable not forced before is left forced to its old forced value exactly when the flag has arrived and no call for the value has; the request is then reported as failed |
| EndToEnd.HalfForced | HMI/src/MasterDriver/ModbusMasterDrv.cpp:337-358 | a link and its four calls for which that happens |
| EndToEnd.ForceThenScan | Regulator/src/SlaveDriver/ModbusSlaveDrv.cpp:293-305 | an acknowledged force or unforce is what the regulator's next update of the variable finds |
| EndToEnd.PublishThenRead | HMI/src/MasterDriver/ModbusMasterDrv.cpp:203-249 | a published field variable is what a successful master read caches: its own value, time and quality, good while it is forced, and the forcing its record held |
| EndToEnd.WriteThenRead | Regulator/src/SlaveDriver/ModbusSlaveDrv.cpp:285-291 | a value the regulator wrote is what a successful master read caches, with the time and a good quality |
| EndToEnd.WordReachesTheScreens | Regulator/src/SlaveDriver/ModbusSlaveDrv.cpp:307-321 | a word the regulator published is what a successful master read caches and the image's delivery shows |
| RegulatorImage.IOImage.UpdateFieldInputs | Regulator/src/IOImage.cpp:174-179 | every field input is sampled with its quality, or keeps what it held if the driver gives nothing, is published in its record, and takes the forcing its record held |
| RegulatorImage.IOImage.UpdateFieldOutputs | Regulator/src/IOImage.cpp:195-199 | every field output keeps its own value, is published and goes to the field forced as its record said, in the same scan |
| RegulatorImage.IOImage.PublishWords | Regulator/src/IOImage.cpp:200-213 | word i is at channel first + i, and no other word or record changes |
| RegulatorImage.AlarmsReachTheReport | HMI/src/AlarmsWdg.cpp:114-134 | through publication, registers, master reads and mask scan, the alarms reported are exactly those set |
| Alarms.SetsOne | Regulator/src/AlarmManager.cpp:115-120 | setting one alarm's bit sets that alarm and no other |
| Alarms.SetAlarmCloses | Regulator/src/AlarmManager.cpp:99-113 | a request sets itself, the summary of its level, and the internal trip unless it is the external one |
| Alarms.RequestsClose | Regulator/src/AlarmManager.cpp:85-120 | over every run from cleared words the alarms set are the closure of those requested since the last clear, in any order |
| Alarms.AlarmsOfRun | Regulator/src/AlarmManager.cpp:85-120 | alarm by alarm over every run: set exactly when a request since the last clear raised it, or one of its level raised the summary or the internal trip |
| Alarms.BitsFromTheTop | Regulator/src/AlarmManager.cpp:115-120 | the first alarm of a word has its most significant bit, the next ones those below |
| Alarms.TheAlarmsClose | includes/Alarms.h:25-27 | the same of the twenty-one alarms and the levels the regulator has |
| Alarms.AlarmManager.ClearAlarms | Regulator/src/AlarmManager.cpp:85-89 | every word becomes zero |
| Alarms.AlarmManager.IsSet | Regulator/src/AlarmManager.cpp:91-97 | true exactly for the alarms set |
| Alarms.AlarmManager.Set | Regulator/src/AlarmManager.cpp:99-113 | the words after a request, and their closure |
| AlarmsWidget.ListedExactly | HMI/src/AlarmsWdg.cpp:122-134 | a scan lists exactly the alarms of the word that are set, in order |
| AlarmsWidget.ReportExactly | HMI/src/AlarmsWdg.cpp:114-120 | the report lists exactly the alarms set, for any number of words |
| AlarmsWidget.AlarmsEndToEnd | Regulator/src/SlaveDriver/ModbusSlaveDrv.cpp:307-321 | packing, encoding, decoding and scanning give back the alarms set |
| AlarmsWidget.LogCountsRises | HMI/src/AlarmsWdg.cpp:40-56 | over any deliveries from zero the log has one entry per rise of each alarm and no other |
| AlarmsWidget.AlarmsWdg.Scan | HMI/src/AlarmsWdg.cpp:43-52 | the shifting mask visits the alarms of the word |
| AlarmsWidget.AlarmsWdg.LogicErrorIntChanged | HMI/src/AlarmsWdg.cpp:40-56 | keeps words and log as the deliveries say |
| AlarmsWidget.AlarmsWdg.GenLogicErrorsReport | HMI/src/AlarmsWdg.cpp:114-120 | the report of the words kept |
| RegulatorControl.TripLatch | Regulator/src/Control.cpp:26-33 | after any run from cleared alarms the external trip is set exactly if some scan tripped and no later one had the trip back with the reset pressed, whatever other faults arose |
| RegulatorControl.StatesFollowSchedule | Regulator/src/Control.cpp:19-76 | over every run from rest, state and speeds depend only on the scans since the start order, contacts follow the speed, the high overspeed and the wrap are never reached |
| RegulatorControl.OneRegulation | Regulator/src/Control.cpp:61-76 | once the ramp is over, which input switches between the two regulations and which set point a scan moves |
| RegulatorControl.SetPointsOfRun | Regulator/src/Control.cpp:48-75 | over every run from rest: the speed set point is 60 from scan 6556, the power set point 50 at the end of the ramp and then the last one confirmed under power regulation, the opening set point the last one followed under opening regulation |
| RegulatorControl.LastScans | Regulator/src/Control.cpp:61-75 | the scans that theorem names are the last ones of their kind |
| RegulatorControl.Control.UpdateControl | Regulator/src/Control.cpp:19-76 | one scan does the alarm requests and the state step the runs are made of |
| FieldErrors.EveryModuleFailedIff | Regulator/src/FieldDriver/EthercatDrv.cpp:86-93 | comparing the size of the error set with the number of modules tells whether every module failed |
| FieldErrors.SyncLostIff | Regulator/src/FieldDriver/EthercatDrv.cpp:117-128 | from a reset counter, a slave out of synchronisation is in error exactly from its third poll on, in spite of the eight-bit counter |
| FieldErrors.TriesSurviveACompleteFrame | Regulator/src/FieldDriver/EthercatDrv.cpp:164-169 | a complete frame resets only the counters of modules in error |
| FieldErrors.EtherDevice.GetVarQState | Regulator/src/FieldDriver/AnalogDev.cpp:84-94 | the quality the status word says, under-range first; communication lost when it cannot be read or is ill-formed |
| FieldErrors.StatusBits | Regulator/src/FieldDriver/AnalogDev.cpp:84-94 | the two bits are counted from the most significant of the word's width, under-range is told before over-range |
| FieldErrors.QualityIs | Regulator/src/FieldDriver/AnalogDev.cpp:53-61 | a failed module takes its variables with it; else the status word decides, or nothing does |
| FieldErrors.EtherDevice.UpdateAnalog | Regulator/src/FieldDriver/AnalogDev.cpp:53-77 | the driver's map gains, changes or loses exactly this variable, by its quality |
| FieldErrors.EtherDevice.UpdatePlain | Regulator/src/FieldDriver/DigitalDev.cpp:27-38 | the same for a device that follows its module |
| FieldErrors.EthercatDrv.CheckSlavesWKC | Regulator/src/FieldDriver/EthercatDrv.cpp:108-170 | after a short frame: an operational slave is not in error, one out of synchronisation is from its third poll or if it was, any other is at once; a complete frame empties the set; and the counters, slave by slave |
| FieldErrors.EthercatDrv.UpdateDevices | Regulator/src/FieldDriver/EthercatDrv.cpp:203-207 | afterwards the error map is exactly the variables whose quality is bad, with that quality |
| FieldErrors.EthercatDrv.Poll | Regulator/src/FieldDriver/EthercatDrv.cpp:80-102 | communication lost exactly when every module failed, at the first poll if all are lost; else variables in error exactly when any error exists, else running; the call-back exactly on entry |
| FieldErrors.EthercatDrv.Start | Regulator/src/FieldDriver/EthercatDrv.cpp:46-54 | a stopped driver runs, with its errors as they were |
| FieldErrors.EthercatDrv.Stop | Regulator/src/FieldDriver/EthercatDrv.cpp:56-61 | any initialised driver stops, with its errors as they were |
| ProcessImage.WritesItsBits | Regulator/src/FieldDriver/EthercatDrv.cpp:209-255 | a write sets the bits of its field, in order, and no other bit of the image |
| ProcessImage.WritesCommute | Regulator/src/FieldDriver/EthercatDrv.cpp:209-255 | writes to fields that do not overlap commute |
| ProcessImage.ReadBack | Regulator/src/FieldDriver/EthercatDrv.cpp:265-305 | a read after a write gives the value modulo the width, or its high bytes for byte fields on a big-endian host |
| ProcessImage.ReadApart | Regulator/src/FieldDriver/EthercatDrv.cpp:265-305 | a read is not disturbed by a write to a field that does not overlap |
| ProcessImage.AddMask | Regulator/src/FieldDriver/EthercatDrv.cpp:217-218 | the loop adds up the mask of as many ones as the field has bits |
| ProcessImage.EthercatDrv.WriteIO | Regulator/src/FieldDriver/EthercatDrv.cpp:209-255 | the image after a write, and when it is refused or times out |
| ProcessImage.EthercatDrv.ReadDevice | Regulator/src/FieldDriver/EthercatDrv.cpp:265-305 | the value read, zero when refused or three bytes wide |
| AnalogScaling.ScalingsInvert | Regulator/src/FieldDriver/AnalogDev.cpp:80-82 | the two scalings are inverse to each other |
| AnalogScaling.ReadingOfBits | Regulator/src/FieldDriver/EtherDevice.cpp:30-54 | the integer the bits stand for, negative from half the range on unless unsigned |
| AnalogScaling.LimitsAreReadings | Regulator/src/FieldDriver/AnalogDev.cpp:4-24 | the limits of a representation are the ends of what its bits can stand for |
| AnalogScaling.ReadingsKeepOrder | Regulator/src/FieldDriver/AnalogDev.cpp:27-39 | readings, negative ones included, keep their order in engineering units, and the ends of one range go to the ends of the other |
| AnalogScaling.Representable | Regulator/src/FieldDriver/EtherDevice.cpp:30-74 | an in-range value converts to an integer the representation reads back as that integer |
| AnalogScaling.LosesLessThanOneUnit | Regulator/src/FieldDriver/AnalogDev.cpp:27-51 | written and read back, a value comes back no larger and less than one hardware unit smaller; exact for whole hardware units |
| AnalogScaling.RoundTripIsMonotone | Regulator/src/FieldDriver/AnalogDev.cpp:27-51 | the round trip keeps order |
| AnalogScaling.StaysInRangeIff | Regulator/src/FieldDriver/AnalogDev.cpp:27-51 | the round trip stays in the engineering range exactly when the hardware range begins at a whole number |
| AnalogScaling.SecondTripIsExact | Regulator/src/FieldDriver/AnalogDev.cpp:27-51 | a second round trip changes nothing |
| AnalogScaling.AnalogDev.Write | Regulator/src/FieldDriver/AnalogDev.cpp:41-51 | the integer handed to the field, or a refusal by the ranges; where the conversion is not defined, whatever the machine makes of it |
| AnalogScaling.AnalogDev.Read | Regulator/src/FieldDriver/AnalogDev.cpp:27-39 | the value of the integer held, or a refusal by the ranges and the representation |
| AnalogScaling.AnalogDev.OutAndBack | Regulator/src/FieldDriver/AnalogDev.cpp:27-51 | the two methods together do the round trip the lemmas are about |

## Left out

- libmodbus, SOEM, libxml, Qt, sockets and threads are not part of this model; their answers are inputs, quantified over.
- Deadlock freedom: the image's button mutex and the driver's state mutex are taken in opposite orders (HMI/src/RegImage.cpp:211-213 against HMI/src/MasterDriver/ModbusMasterDrv.cpp:360). The results are about atomic steps.
- That no expired request is left after a clean: the queue is ordered by the largest time-out, not by deadline, so an expired request may wait behind one that is not due.
- Which of several requests with equal time-outs the priority queue hands out: the protocol allows any, the class takes the first.
- ButtonResults.ButtonRuns: covers the runs in which no plain write times out on a button being pressed; in the others a button's phase is no longer told from its requests, as TokensKeptIff and PlainWriteLosesRelease state.
- ButtonCell.CellHoldsRelease: asks besides that no other request goes to the value cell of the button and that the regulator only reads it, and that both programs are made for one map.
- ReadResults.NothingIsLost: takes each read as one step; runs with polls and deliveries between its two halves are covered by ReadInterleaved. Time stamps are not compared, as in the source.
- ButtonCell.CellHoldsLastArrived: a call arrives during its own transmission or never; one left in a socket and served by the regulator after a later request is not modelled.
- DriverTurns.Turns: starts where the write cycle is due; how long the read cycle and its reconnections may last before that is a matter of the clock.
- The signals for a lost and a recovered link, and the growing delays between attempts to reconnect.
- RegImage's parsing of its description file: the tables it fills are given.
- FieldErrors.EthercatDrv.Poll: covers one session from init on, because close keeps the error maps; recovering and reconfiguring slaves changes no error state and is not modelled. The counters have one entry more than in the source, which indexes past the end of its vector (Regulator/src/FieldDriver/EthercatDrv.cpp:405).
- OperatorRequests.TimeOutsAreReported: covers the harmless runs of ButtonRuns; in the others the time-out may be taken for the button's.
- FieldErrors.EtherDevice.UpdatePlain: leaves out the measuring of pulses by digital devices.
- PulseDev's write sequence with its synchronous set bit.
- ProcessImage.EthercatDrv.WriteIO: fields of bits that cross a byte are excluded, since the source then shifts by a negative amount; fields of three bytes are accepted and do nothing, as in the source.
- AnalogScaling.Representable: covers widths of 8 and 16 bits; with 32 a float no longer holds every integer.
- AnalogScaling.ScalingsInvert: uses reals where the source has floats, as all of AnalogScaling does.
- RegulatorControl.StatesFollowSchedule: uses reals where the source accumulates floats, so the number of scans the ramp takes (6556 and 7223) is that of exact arithmetic.
- Floats elsewhere are 32-bit patterns, compared as IEEE 754 does.
- The slave's initMapping indexes coils by raw channel (Regulator/src/SlaveDriver/ModbusSlaveDrv.cpp:264-270); the model starts from cleared blocks, as libmodbus allocates them.
- Alarm words that are not initialised in the source start cleared here, on both sides.
- Quality words of field variables: the regulator's packing is not the inverse of the HMI's unpacking, and the address index it needs is never filled, so no round trip is claimed.
- RegulatorControl.TripLatch: the faults of a scan are arbitrary; the choice of checkDriverErrors among them is not modelled.
- The slave inputs and outputs of IOImage, which are one call of the slave driver each.
- SlaveServer.SweepSound: the listening descriptor keeps its number; the source hands its variable to modbus_tcp_accept (Regulator/src/SlaveDriver/ModbusSlaveDrv.cpp:168), which may overwrite it when an accept fails.
- The state machine of the slave driver around its connection table, and the sharing of the map between its threads.
- Widgets other than the alarm list, plots, the real-time measurer and the passing of real time.
