# The IPC terminal, modelled and proved

The program is a small remote terminal.  A client puts one command line into a shared-memory slot
guarded by a semaphore; the server's listener copies it out and starts a worker; the worker runs
the command and streams its output back over a FIFO of the client's own; the server console can
interrupt a client's command, or shut the client down, by cancelling the worker and writing a
sentinel line into that same FIFO.  This project models that program and proves what its protocol
keeps, for every input, every run and any number of clients.  The meaning is taken from
`myproj2.c`; the C++ files are an unfinished split of the same code.

| file | part of the program |
|---|---|
| `Wire.dfy` | constants, sentinels, C strings |
| `LineSplit.dfy` | cutting a byte stream at its newlines; what a bounded buffer keeps of a line |
| `LineReader.dfy` | `readLine` over a descriptor whose reads may be interrupted or fail |
| `Worker.dfy` | the worker's output loop and its framing (`strlen(line) + 1` bytes a line) |
| `Client.dfy` | the client's decoding loop and main loop |
| `Framing.dfy` | worker and canceller against client, end to end |
| `Command.dfy` | the command text through its three buffers |
| `TaskQueue.dfy` | the linked active-task queue, cancel, cancel-all, the console |
| `Cancelling.dfy` | what a cancel's effects do to threads, FIFO ends and FIFO names |
| `Search.dfy` | looking up and cutting out an entry, shared by the linked queue and the transition system |
| `Slot.dfy` | the slot and semaphore protocol as a transition system, and as a description of its traces |
| `Lifecycle.dfy` | the whole system as a transition system |
| `Ownership.dfy`, `Channels.dfy` | what every run of it keeps: queue entries, FIFO ends, writers and readers |
| `Histories.dfy` | what its state tells of the run |
| `Rounds.dfy` | what runs keep that write no request over another, and how each round of a client ends |
| `Rest.dfy` | where every run ends up once clients load nothing more |
| `Outcomes.dfy` | for which command output the system stays sound, and what collisions do to it |
| `Segment.dfy` | the name of the shared-memory segment, which keeps a second server out |

Code that works by changing things in place is modelled that way: `readLine`, the pump, the two
client loops, the text buffers and the queue are methods over arrays, objects and linked nodes.
The concurrent parts are transition systems whose steps are the atomic steps named below.
A byte is a Dafny `char`; no statement depends on the range of `char`.

## What the code does that its comments do not say

- The semaphore does not protect the slot (the comments at `myproj2.c:690` and `myproj2.c:984` say
  it does): the client ignores `sem_trywait` and writes before it.  Delivery is exactly-once and in
  order if and only if no request is written over a waiting one (`Slot.ExactlyOnceIffSerialised`);
  `Slot.CollisionLosesAndDuplicates` is a run that loses one request and runs another twice.  The
  client whose request is written over is stranded: it waits for its FIFO for ever, and nobody is
  stranded if and only if no request is written over (`Rounds.OverwriteStrands`,
  `Rounds.StrandedForGood`, `Rounds.NobodyStrandedIffSerialised`).
  `Outcomes.CollisionOrphansAndDuplicates` is such a run, in which moreover two workers share the
  other client's FIFO.
- A decoded line of 32 bytes that is not the interrupt sentinel is dropped, and any decoded line of
  31 bytes ends the client's loop, because of misplaced braces (`myproj2.c:1049-1066`).  All theorems
  keep the code as it is, except where a name says `Intended`.  `Framing.AsIntendedIff` says when
  the two agree; `Outcomes.NeverBrokenIffClean` and `Outcomes.OneEntryIffGentle` say exactly for
  which command output the whole system stays sound.
- A line typed without a newline at the end loses its last byte, and a line longer than 4090
  bytes makes the worker write outside its buffer (`Command.CommandText`).
- Removing the head of the queue clears the removed node's `prev`, not its successor's
  (`myproj2.c:487`).  The queue invariant leaves the head's `prev` unconstrained, and every
  operation is proved from that invariant alone.
- A failed client connection unlinks the segment name, and does so a second time at exit if the
  client had been attached before.  A server that starts in between can be joined by a second one
  (`Segment.TwoServersAtOnce`), and that is the only way (`Segment.AlwaysAloneIffOrderly`).
- The program handles no SIGPIPE, so a write to a FIFO that nobody reads any more ends the server.
  The model goes on and records it (`broken`); `Outcomes.NeverBrokenIffClean` says when it cannot
  happen, and `Outcomes.OneEntryIffGentle` holds of the runs in which it has not happened, too.

## Assumptions of the transition systems

One step each: a slot write, a `sem_trywait`, a `sem_post`, a `sem_wait`, a slot copy, one queue
operation, one whole cancel (find, kill, join, write, close, unlink, remove), a worker's close and
unlink, and a client's open of its FIFO.  That open waits for a worker and lets every worker go on
that is blocked on the client's FIFO; a worker that comes while the client is reading, and finds the
name still there, opens the same FIFO and shares it.  The client reaches the end of the stream when
every writer has closed.  A worker may have written any prefix of its framed output when it is
cancelled.  System calls other than those modelled do not fail.

What is said of runs needs more or less of them:

- Every run, however requests collide: who takes an entry off the queue and who closes a FIFO end
  (`Ownership.EveryRunIsOwned`), who writes to and who reads a FIFO (`Channels.EveryRunKnowsItsFifos`),
  when a round can end (`Channels.RoundCanEndIff`), what the state tells of the run
  (`Histories.EveryRunIsTold`), and where it comes to rest (`Rest.SettledIff`).
- Runs that write no request over a waiting one ("serialised"), whatever the commands print:
  exactly-once delivery, no client left waiting for nothing, one writer to a FIFO, and how each
  round ends (`Rounds.EverySerialisedRun`, `Rounds.RoundOutcome`, `Rest.SerialisedRunsComplete`).  Every run of a single client is
  serialised (`Rounds.SingleClientIsSerialised`).  For output that is not clean, "whatever the
  commands print" rests on a step unlinking the name only as long as it leads to the FIFO the step
  has open: after its client has left early, the old worker's unlink by name (`myproj2.c:678`) could
  otherwise remove the FIFO that the client has made for its next request, and the next worker would
  make another.
- Serialised runs with "gentle" output: one queue entry per client.  With "clean" output: no write
  without a reader.  Clean output has no complete framed line at which the client stops; gentle
  output is clean or makes the client stop at the shutdown sentinel.  Both conditions are exact.

## Model

| member | source | states |
|---|---|---|
| LineSplit.LineEnd | myproj2.c:178-206 | A line is everything through the first newline, or all that is left when there is none |
| LineSplit.LinesPartition | myproj2.c:178-209 | Reading to end of file cuts the stream into nonempty pieces that concatenate to it; every piece but possibly the last ends in its only newline |
| LineSplit.LinesUnique | myproj2.c:178-209 | That is the only way to cut the stream into lines |
| LineSplit.LinesAppend | myproj2.c:1039-1047 | What arrives behind a newline is decoded independently of what came before |
| LineSplit.LinesOfPrefix | myproj2.c:1039-1047 | The complete lines seen so far do not change as more of the stream arrives |
| LineSplit.Kept | myproj2.c:198-201 | What a buffer of n bytes keeps of a line is its prefix, of min(length, n-1) bytes |
| LineSplit.KeptAllIffFits | myproj2.c:198-201 | The buffered pieces concatenate to the stream exactly when every piece has at most n-1 bytes; otherwise something is lost |
| LineReader.ReadLine | myproj2.c:162-210 | Whole contract of `readLine`: rejected arguments, restarted reads, failures; exactly the first line is consumed, min(length, n-1) bytes are kept and returned, one terminator follows, nothing else in the buffer changes, and at end of file with nothing kept the buffer is untouched |
| LineReader.ScanIsFirstLine | myproj2.c:178-206 | However often reads are interrupted, what a call consumes is the first line, and what is left is the rest |
| LineReader.ScanMeetsFailure | myproj2.c:182-188 | A call reports failure exactly when a failure precedes the first newline; the partial line is lost |
| LineReader.ScanLeavesBehindFailure | myproj2.c:182-188 | After a failure exactly the bytes behind the first failing read are left |
| LineReader.ZeroIffEndOfFile | myproj2.c:190-199 | With n at least 2 the result 0 means end of file and nothing else; with n = 1 every call returns 0 |
| Worker.Pump | myproj2.c:650-662 | The getline/write loop puts exactly the encoding of the whole command output on the FIFO |
| Worker.EncodeShape | myproj2.c:653-658 | For any output, embedded NULs included, every newline on the FIFO is followed by NUL, and the stream ends in NUL |
| Worker.LaterLinesStartWithNul | myproj2.c:653-658 | Hence every line of the worker's stream but the first begins with NUL |
| Worker.CutLines | myproj2.c:653-658 | On any prefix closed by the canceller's newline, every line but the first begins with NUL or is a lone newline |
| Worker.DecodedLines | myproj2.c:653-658 | Exactly which lines arrive for NUL-free output: NUL before each but the first, NUL behind an unterminated one, and a last lone NUL |
| Worker.EncodeReversibleIff | myproj2.c:653-661 | Deleting the NULs gives the command's output back exactly when that output has no NUL |
| Worker.WhatIsSent | myproj2.c:653-658 | For any output, NULs included, deleting the NULs from the stream leaves of each line what precedes its first NUL |
| Client.DecodeStopsAtFirstStopper | myproj2.c:1039-1073 | The decoding loop, as written, ends at the first line that is the interrupt sentinel or has 31 bytes, for that line's reason, or at end of file when there is none |
| Client.DecodePrintsPassed | myproj2.c:1045-1072 | What it prints, wherever it ends, is the lines read before the one that ends it, in order, without those of 32 bytes |
| Client.ClientProgram.ReadPiece | myproj2.c:1041-1044 | One cleared buffer and one `readLine` deliver the next line cut to the buffer, 0 exactly at end of file, and `strcmp` on the buffer compares the whole line |
| Client.ClientProgram.GetResult | myproj2.c:1023-1084 | The loop over the FIFO prints what the decoding function says, sets CLIENT_SHUTDOWN exactly for the shutdown sentinel, and leaves exactly the unread lines |
| Client.ClientProgram.ClientMain | myproj2.c:1088-1127 | The requests loaded are the typed lines before the line "exit", a missing server, or the first reply that asks for shutdown; nothing is loaded after that reply |
| Framing.SentinelResynchronises | myproj2.c:71-74 | Whatever is on the FIFO, cut anywhere, the canceller's write arrives as the sentinel on a line of its own, behind the lines of the rest, and a reader gets it whole exactly when its buffer is longer than the sentinel |
| Framing.CancelReachesClientIff | myproj2.c:777-797 | For any FIFO contents the client ends at the canceller's line, for the canceller's reason, exactly when no earlier line is a stopper; otherwise it ends at an earlier stopper |
| Framing.CancelBetweenWritesIff | myproj2.c:765-797 | For a cancel between two writes of NUL-free lines the same, as a condition on the output's own line lengths and first line |
| Framing.CancelledOutputIff | myproj2.c:1044-1072 | What a cancelled command has printed is what the client prints of the FIFO's bytes and the canceller's newline: its lines up to a stopper without those of 32 bytes, and all of them exactly when none has 31, 32 or more than 4095 bytes |
| Framing.OnlyFirstLineCanMatch | myproj2.c:1044-1066 | On any cut stream only the first line can equal a sentinel |
| Framing.ForgedSentinelIff | myproj2.c:1044-1066 | A worker's stream contains a sentinel line exactly when the first line of the command's output is that sentinel |
| Framing.ClientPrintsStreamIff | myproj2.c:1044-1072 | For any stream the client's stdout is the stream exactly when no line has 31, 32 or more than 4095 bytes |
| Framing.OutputRoundTripIff | myproj2.c:653-661 | For NUL-free output an uncancelled run prints the worker's stream exactly under a condition on output line lengths, and then deleting NULs gives the output byte for byte |
| Framing.AsIntendedIff | myproj2.c:1049-1066 | The loop as written and the loop with its braces in place agree exactly when no line up to the first sentinel has a sentinel's length without being one |
| Framing.IntendedCancelReachesClientIff | myproj2.c:1044-1066 | With its braces in place the loop ends at the canceller's line, for any output and any cut, exactly when the first line on the FIFO is not itself a sentinel, and then asks for shutdown exactly for the shutdown option |
| Framing.IntendedPrintsStreamIff | myproj2.c:1044-1072 | With its braces in place the loop prints any stream in full exactly when no line is a sentinel and none has more than 4095 bytes |
| Framing.IntendedRoundTripIff | myproj2.c:653-661 | For NUL-free output it then delivers the worker's stream exactly when the first output line is no sentinel and every line fits the buffer with its NULs, and deleting NULs gives the output byte for byte |
| Command.LoadRequest | myproj2.c:994-998 | The slot gets the line cut to MAXLINE-1 bytes and NUL-filled, while textlen is the length of the whole line |
| Command.UnloadRequest | myproj2.c:720-724 | The listener's record gets the same string, again with room for a terminator |
| Command.AppendRedirect | myproj2.c:637-639 | The string is cut at textlen-1 and the redirection appended, if both writes stay inside the array; otherwise that is reported |
| Command.CommandText | myproj2.c:637-642 | For any typed line the three steps stay inside their arrays exactly for 1 to MAXLINE-6 bytes, and then the string given to popen is the line without its last byte, followed by the redirection: the command as typed exactly when the line ends in a newline |
| TaskQueue.Queue.Add | myproj2.c:389-440 | Add is cons: a fresh node with the request's fields becomes the head; a null request changes nothing |
| TaskQueue.Queue.Find | myproj2.c:448-467 | Find returns the first node of the client, or null when there is none |
| TaskQueue.Queue.Remove | myproj2.c:475-498 | Remove deletes exactly that node, keeps the list well linked, leaves the node's own next alone, and leaves the new head's prev stale |
| TaskQueue.Queue.CancelClient | myproj2.c:750-808 | Cancel kills, joins, sends the option's sentinel, closes, unlinks and removes exactly the client's first task; an unknown option kills and leaves the entry; an unknown client changes nothing |
| TaskQueue.Queue.CancelAll | myproj2.c:819-828 | Cancel-all terminates, sends exactly one sentinel per entry in list order even when ids repeat, and leaves the queue empty; with an unknown option nothing is removed |
| TaskQueue.Queue.RunConsole | myproj2.c:856-940 | The session is a chain of states, one a command: "cancel" interrupts and "shutdown" shuts down the first task of the client named, unless the id is 0; "exit" and "shutdownall" empty the queue and write SEND_INTERRUPT or SEND_SHUTDOWN once to each task left, in list order, and end the session; nothing else changes anything |
| TaskQueue.ConsoleConserves | myproj2.c:902-935 | Over any session every entry is either still queued or was cancelled, exactly once, and the effects are exactly those of the cancellations |
| Cancelling.CancelPerforms | myproj2.c:765-807 | A cancel's effects go through in their order: the worker is told to stop and joined before the sentinel of the option is written, which is the last thing on the FIFO; then the thread, the FIFO end and the name are gone, and nothing else has changed |
| Slot.StepKeeps | myproj2.c:995-1007 | Every slot step keeps the five invariants: no lost wakeup, bounded semaphore, conservation, latest request kept, only loaded requests dispatched |
| Slot.RunsAreTraces | myproj2.c:713-724 | The transition system is the trace description: clients going round write, trywait, post, a listener alternating wait and copy, and a semaphore that counts; exactly its traces are possible, and slot, semaphore, flags, phases and logs are what the trace says |
| Slot.EveryRunIsSafe | myproj2.c:713-729 | In every interleaving of any N clients: an uncopied request always has a token under way; semaphore value plus clients between trywait and post is at most N; the slot writes of the run = dispatches + semaphore + copying + trywaits of the run that found it positive + clients in flight; every dispatched request is one of those written |
| Slot.LatestRequestDelivered | myproj2.c:994-1007 | Once clients stop writing, every continuation ends within a stated number of steps, and at rest the latest request has been dispatched |
| Slot.ExactlyOnceIffSerialised | myproj2.c:986-1010 | All loads but at most one waiting one are dispatched, once and in order, throughout a run if and only if no request is written over a waiting one |
| Slot.CollisionLosesAndDuplicates | myproj2.c:1000-1003 | A run of two clients in which the first request is lost and the second dispatched twice |
| Lifecycle.HaltsIff | myproj2.c:1039-1073 | While the FIFO is open the client leaves it exactly when a complete line on it is a stopper |
| Lifecycle.CleanKeepsReading | myproj2.c:1039-1073 | A client never leaves the open FIFO of clean output |
| Lifecycle.GentleLeaving | myproj2.c:1058-1066 | It leaves the open FIFO of gentle output only to shut down |
| Ownership.CancelAgrees | myproj2.c:755-807 | A cancel in the transition system does to the queue's client ids what `TaskQueue.Cancelled`, the contract of the linked list's cancel, does to them |
| Channels.CancelDoesTheEffects | myproj2.c:777-807 | It marks that client's first task with the option given, writes to its FIFO exactly the bytes of the one write among that contract's effects, closes and unlinks it, and touches nothing else |
| Ownership.WorkerAgrees | myproj2.c:389-498 | A worker joins the queue at the head and leaves it where it stands, as on the linked list |
| Lifecycle.RunsTheSlot | myproj2.c:713-729 | Every run of the whole system is, at the slot, a run of the slot protocol, serialised exactly when that one is |
| Ownership.OwnedStep | myproj2.c:632-678 | Every step of the whole system keeps the ownership of queue entries and FIFO ends, whatever else has gone wrong |
| Ownership.EveryRunIsOwned | myproj2.c:632-678 | In every run of any N clients, with no condition on loads or output: the queue holds exactly the running workers, each entry is removed once and each server FIFO end closed once, by worker or canceller |
| Histories.EveryRunIsTold | myproj2.c:632-678 | In every run: the requests loaded are those of the run's loads, each dispatch has become one task of its client with the output its copy started, what has left the queue and been closed is what the run's removals, closes and cancels took, and the flag for a write without a reader is up exactly when a step of the run wrote so |
| Channels.EveryRunKnowsItsFifos | myproj2.c:542-577 | In every run: the writers of a FIFO are exactly the tasks that have opened it, all of the client that opened it to read, so that a client reads only its own tasks' output; a name leads to a FIFO only while its client reads it and no end of it has been closed |
| Channels.RoundCanEndIff | myproj2.c:1039-1073 | In every run a client being served can end its round exactly when every task that has opened its FIFO has closed it, or a complete line at which the client stops is on it |
| Channels.OpenReleasesAll | myproj2.c:559-575 | A client's open goes through exactly when a worker is blocked on its FIFO, and lets all of them go on, to the same FIFO |
| Channels.LateWorkerShares | myproj2.c:559-562 | A worker that comes while its client reads shares the FIFO, and the client meets no end of file before it has closed, too |
| Rest.SettledIff | myproj2.c:1092-1124 | In every run: nothing but a load, an exit or a console command can happen exactly when every task has closed its end or is blocked on a FIFO nobody opens, nobody sends or is served, and only stranded clients wait |
| Rest.SerialisedRunsComplete | myproj2.c:613-683 | In serialised runs rest means that all is done: every client is ready or gone, every request loaded has been carried out by one task of its client, in order, and each task's whole stream is on its own FIFO unless it was cancelled |
| Rest.LoadFreeRunsEnd | myproj2.c:713-729 | Once clients stop loading, the steps of every continuation, console commands aside, are bounded by the work in hand and the output of the commands started meanwhile |
| Rounds.StepKeeps | myproj2.c:613-683 | Every step that writes no request over another keeps the invariant that ties clients, slot, workers and FIFOs together, whatever the commands print |
| Rounds.EverySerialisedRun | myproj2.c:559-575 | In every serialised run of any N clients, whatever the commands print: delivery is exactly-once and in order, a client waiting for its FIFO is waited for, every opened FIFO has one writer and holds exactly what was written for its task, and a client reads only its own task's |
| Rounds.OverwriteStrands | myproj2.c:994-1007 | A load over a request that waits strands the client whose request waited: it has loaded, the slot holds another's request, and no worker is on its way to it |
| Rounds.StrandedForGood | myproj2.c:1023-1036 | A stranded client stays so in every continuation, whatever the others do, and is never served again |
| Rounds.NobodyStrandedIffSerialised | myproj2.c:986-1010 | For every run of any N clients: nobody is stranded if and only if no request has been written over a waiting one, and every client waiting for its FIFO is waited for if and only if none of them is stranded |
| Rounds.DeliveredIffSerialised | myproj2.c:986-1010 | In a run of the whole system delivery is exactly-once and in order throughout if and only if the run is serialised |
| Rounds.SingleClientIsSerialised | myproj2.c:559-575 | With one client the blocking FIFO open serialises the loads: in every run, whatever is printed, no request is written over another, and delivery is exactly-once and in order at every step |
| Outcomes.SingleClientIsOwned | myproj2.c:1092-1124 | For one client ownership, delivery and being waited for hold in every run; gentle output adds one entry per client, clean output that every write has a reader |
| Rounds.RoundEndsIff | myproj2.c:1045-1066 | A round of a serialised run can end exactly when its task is closed or cancelled or a complete stopper is on its FIFO: end of file ends every round that nothing else does |
| Rounds.RoundOutcome | myproj2.c:1045-1066 | How any round ends, for any output: the client has printed what it prints of the whole output, or of what had been written and a newline if cancelled; without a cancel it is gone exactly when its first stopper is the shutdown sentinel, and with clean output it leaves only a finished task and is ready; after a cancel it ends as the option says exactly when no earlier line stops it, or the first that does means the same |
| Rounds.RoundPrints | myproj2.c:1044-1072 | What the client prints in a round of a serialised run, as `GetResult` reads it: for a finished task its own task's stream exactly when the lines arriving are printable, for NUL-free output a condition on the output's lines under which deleting NULs gives that output; for a cancelled one all that was written and a newline exactly when those lines are printable |
| Rounds.LoadsAgainIff | myproj2.c:1092-1124 | After a round some continuation has another request of the client exactly when the reply, as `Client.ClientProgram.ClientMain` reads it, asked for no shutdown; after a cancel that nothing forestalled, exactly when it was an interrupt |
| Rounds.CancelDecidesRound | myproj2.c:777-797 | Whatever happens after a console's cancel, the client served by that task can leave, and ends gone for a shutdown and ready for an interrupt exactly when no line written before makes it stop, or the first that does means the same; when none does it loads again exactly after an interrupt |
| Rounds.QuitIsFinal | myproj2.c:1105-1109 | A client at its prompt can leave, and then loads nothing more |
| Outcomes.EveryGentleRun | myproj2.c:670-672 | In serialised runs of any N clients: with gentle output no client has two queue entries, and with clean output nothing is written to a FIFO without a reader |
| Outcomes.NeverBrokenIffClean | myproj2.c:656-799 | For any number of serialised clients and any set of outputs: in no run does a worker's or the canceller's write go to a FIFO that its client does not read, if and only if every output is clean |
| Outcomes.AnyCut | myproj2.c:765-797 | For any output, any cut and either option a run leads to a FIFO holding exactly that prefix and the sentinel, with the client reading it |
| Outcomes.OneEntryIffGentle | myproj2.c:448-467 | For any number of serialised clients and any set of outputs: no run puts two entries of a client into the queue, if and only if every output is gentle; the same of the runs that have not yet written to a FIFO without a reader |
| Outcomes.DuplicatingRun | myproj2.c:1058-1066 | For any output that is not gentle, a serialised run that queues the same client twice before anything is written to a FIFO without a reader |
| Outcomes.CollisionOrphansAndDuplicates | myproj2.c:559-575 | A witness with two clients and no output at all: one is stranded, the other has two queue entries and two workers on one FIFO |
| Segment.EveryOrderlyRun | myproj2.c:289-368 | At most one server is up, and the name exists exactly while one is, whenever no failed connection is under way, in every run that starts no server during one |
| Segment.FailureLeavesNoTrace | myproj2.c:305-323 | A failed connection, taken as a whole with the client's clean-up and exit, leaves the name and the servers as they were (remark: so does a refused second server, by the one branch it takes) |
| Segment.VisitLeavesNoTrace | myproj2.c:233-263 | A client that joins a running server and exits leaves the name and the servers as they were |
| Segment.EveryPromptRun | myproj2.c:233-263 | Runs in which every failed connection is at once followed by that client's clean-up and exit are orderly: in all of them at most one server is up, and between connections the name exists exactly while one is |
| Segment.AloneIff | myproj2.c:233-263 | A server that is up stays the only one until it exits, in every continuation, exactly when no failed client was still about to unlink the name |
| Segment.AlwaysAloneIffOrderly | myproj2.c:289-368 | In a run from the start, every server that comes up is and stays the only one, in the run and all continuations, if and only if no server got the name while a client was still about to unlink it |
| Segment.TwoServersAtOnce | myproj2.c:233-263 | A run of one client from the start that ends with two servers |

## Left out

- Client.ClientProgram.GetResult: does not model a read failure other than an interruption, because the code then passes `write` a length of (size_t)-1 from a 4096-byte buffer, which has no defined effect; closing and unlinking the FIFO after the loop and the two printed notices are also left out.
- Client.ClientProgram.ClientMain: ends when the list of typed lines ends; the code goes on with a null line there.
- Command.AppendRedirect: reports a write outside the array instead of modelling what it overwrites.
- TaskQueue.Queue.Add: does not model a failing `malloc`.
- TaskQueue.Queue.Remove: `free` is not modelled beyond the node leaving the list.
- TaskQueue.Queue.CancelAll: reads the successor before the node is freed, where the code reads it afterwards; `Remove` is proved not to change that field.
- TaskQueue.Queue.RunConsole: takes commands already parsed, and ends when they end; the code goes on with a null line there.
- Interleavings inside one slot write, one queue operation or one cancel: each is one step, although the code has no mutex around them.
- Failures of `popen`, `pclose`, `write`, `pthread_*`, `sem_*` and `mmap`, which leave stale entries.
- The server's exit while workers run, process-id reuse, and the late unlink of a FIFO that has been created again: each step unlinks the name only as long as it leads to the FIFO the step has open.
- Prompts, help, the task listing and `myprint`: printing only.
- Option parsing in `main`, the `-x` clean-up switch, and a server that crashes without unlinking the name.
- `Client_Server_Program` and the defects of the unfinished C++ split.
