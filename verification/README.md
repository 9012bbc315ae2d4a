# A verified model of the Lattice node agent

The Lattice node agent runs on a host, leases scripts from a control plane, runs
each one at most once, reports one result for it, and meanwhile observes the
host: it assembles connection records from a proxy's log, ships log files, keeps
terminals alive across dropped connections and queues probe results. This
project models the parts of it whose correctness spans several calls, processes
or crashes, and proves what they promise.

`dafny verify dfyconfig.toml` checks everything.

## How the model is built

- **Crashes.** An operation that touches the disk or the network returns
  `Step<T>`: it is done, or the process died in it. Its `Fate` is chosen freely:
  it works, fails before or after its effect, or dies before or after it. Every
  contract speaks about the state after a death as well, so `Agent.Run` covers a
  stop at any point, inside recovery too.
- **Disks.** A linechain publication or journal write is one atomic change. The
  outbox directory has two layers: what is visible, and for each file what a
  power loss may bring back because no directory sync followed.
- **Digests** are symbolic (`Digest`), so equal digests mean equal contents.
- **The server** is the environment: it accepts, refuses, or accepts without its
  answer arriving. It lists a lease at most once per response and never issues a
  lease whose result it accepted.
- **Concurrency.** The worker, the main loop and the prefetcher are a transition
  system (`TaskWorker`). In `Collector`, `MonitorQueue` and `LogShip` whatever
  other goroutines may do between two calls is a call that does any of it, any
  number of times. `Collector` has one log stream at a time; `Overlap` says what
  happens when two overlap.
- **Evidence.** `SessionConn` keeps beside each connection what was really
  observed of it; a record is honest if it says no more than that. What each
  line, poll and tick adds to the evidence and to the records is stated exactly.
- Invariants are stated as sets of violations that stay empty (`Violated`,
  `Broken`, `Overstated`, `Misplaced`, ...), each with a lemma that says what the
  empty set means. A proof then unfolds an invariant only where it calls that
  lemma, which keeps the proofs of the methods small.

## What is proved

1. In every run, with any number of crashes and power losses, no journaled
   lease's script starts twice and the server never gets two results for one
   lease, and neither history ever loses an entry (`Agent.Agent.Run`). Every
   result it gets is the outcome of a recorded run, the result a transaction was
   settled with, an unknown outcome, or the report that nothing ran. The start
   and its outcome are recorded where they happen (`Agent.Agent.Launch`). A result
   leaves the outbox only from an entry that no power loss can change
   (`Agent.Agent.Upload`).
2. A linechain transaction that recovery reports as resolved left exactly the old
   pair or exactly the desired pair on disk, and its result says which
   (`Agent.Agent.RequireLinechainRecovered`); every journal a crash can leave
   validates (`Linechain.ReachableJournalsValidate`). The result the server gets
   for a linechain lease is true of the host's files and answers its run, and no
   file but its pair changed (`Agent.Agent.ExecuteTask`). A failed script is
   reported as a success only if its journal held that result before it ended
   (`Provenance.FailureReported`). A fragment that is not the one the document
   replaces is not touched (`Linechain.Manager.ApplyFresh`).
3. Leases are handed out only with an empty, durable outbox and no journal
   (`Agent.Agent.PollTasks`).
4. In every interleaving, poll and worker never share the outbox, the batch send
   never blocks, and no download is open while a leased script runs
   (`TaskWorker.RunsAreSafe`).
5. The assembler's map, list and source index agree and created connections are
   all accounted for. What every line, poll, tick and restart does to the open
   connections, their order of creation, the finished ids and the records is
   stated exactly, with the evidence known of each connection then; every record
   ever emitted is honest, and is drained once or still queued
   (`SessionAsm.Assembler`). Which connections a tick or a poll ends, when and as
   what is also told by their fields (`SessionFate.TickEnds`,
   `SessionFate.PollEnds`): while the newest poll lists a connection, a half close
   does not end it.
6. With one log stream at a time, and polls, ticks, restarts and resets between
   any two calls: from the line on by which a tracked connection came to be
   tracked all its lines that were read were fed, and from the line on by which a
   shed one was shed none was. That line is a function of the guard's decisions
   alone (`Verdicts.Together`). A line finds its connection shed if and only if
   one of the last marks the ring holds, made since the last reset, is its own
   and was not cleared, and until then nothing of it is kept
   (`ShedMarks.ShedWhileStanding`, `ShedMarks.StaysSilent`). Lines over the hard
   ceiling and lines that do not parse are not read (`Collector.Stream.Run`).
7. Each small structure refines the history it stands for: the shed ring, the
   done set, the breaker's 64-bit word, the line-rate ring, the replay ring, the
   monitor queue, the log tailer and its checkpoint, the sidecar merge and the
   sidecar cycle check.

Three promises do not hold as they are worded in the code's comments, and are
stated with their exact condition:

- `Complete` answers a repeated result without looking at the sync state
  (internal/taskoutbox/outbox.go:208-210). The cleanup that follows is therefore
  not always behind a durable completion. `TaskOutbox.RepeatedCompletionMayNotBeDurable`
  gives the state, and `Agent.Agent.CompleteRecovered` says exactly when the
  completion is durable: if and only if the entry was still awaiting or its file
  had nothing unsynced. Single result and at-most-once do not depend on it.
- `dropped` falls short of the results the server lacks between settling an
  answered batch and counting what the answer dropped
  (cmd/lattice-agent/monitor_results.go:201-203). `MonitorQueue.ShortWhileOwed`
  is a queue in that state. The queue remembers in `exact` whether so far every
  answer said exactly what was not stored, no result overflowed while it was on
  its way, and none that the server had or had answered. While it did, the server
  lacks exactly `dropped` plus what is owed after every step
  (`MonitorQueue.Queue.PostAndSettle`), so `dropped` covers it if and only if no
  batch is between the two calls (`MonitorQueue.ShortExactlyWhileOwed`), and
  after every `Flush` the two are equal. Otherwise `MonitorQueue.BalancedCovers`
  still bounds the shortfall by what is owed, and every call of `Flush` ends with
  nothing owed.
- A connection may be both tracked and shed while two log streams overlap. A
  level change cancels the old stream without waiting for it
  (cmd/lattice-agent/tracesource.go:713-741), and its reader goes on with the
  lines it has buffered (internal/singboxapi/logs.go:104-110).
  `Overlap.TornApart` gives the interleaving. `Overlap.AdmitOn` and
  `Overlap.FeedOn` say exactly which step does it: a decision over budget on an
  answer that says "not tracked" of an id that is tracked by now, or the feeding
  of a line whose id was shed since it was kept. With one stream at a time
  neither happens.

## Model

| member | source | states |
|---|---|---|
| `TaskOutbox.PutAdds` | internal/taskoutbox/outbox.go:484-505 | after a rename, link or unlink without a directory sync a power loss can surface the new content or any earlier one, and nothing else changes; a sync leaves only the new one |
| `TaskOutbox.PowerLossNarrows` | internal/taskoutbox/outbox.go:484-505 | a power loss never surfaces content that could not surface before |
| `TaskOutbox.RepeatedCompletionMayNotBeDurable` | internal/taskoutbox/outbox.go:202-221 | an entry that holds exactly the repeated result, and is answered as completed, can revert to the awaiting lease at a power loss |
| `TaskOutbox.Store.SyncDir` | internal/taskoutbox/outbox.go:500-503 | success promotes every visible change; failure changes nothing |
| `TaskOutbox.Store.WriteEntry` | internal/taskoutbox/outbox.go:451-506 | reports committed exactly when the entry became visible, and success only when it is durable; never replaces an existing file for a new lease; at any crash at most this content was added |
| `TaskOutbox.Store.ReadAll` | internal/taskoutbox/outbox.go:336-357 | lists each visible entry exactly once, or reports an error |
| `TaskOutbox.Store.Begin` | internal/taskoutbox/outbox.go:169-198 | a new journal only if no lease of this id is journaled, both ids are given and there is room; success without commit only for an exact redelivery; at any crash at most one awaiting entry was added |
| `TaskOutbox.Store.Complete` | internal/taskoutbox/outbox.go:202-221 | replaces an awaiting entry by exactly this result and touches no other; without commit it succeeds if and only if the entry already holds this result |
| `TaskOutbox.Store.ConfirmDurability` | internal/taskoutbox/outbox.go:227-233 | success makes everything visible durable and clears the flag |
| `TaskOutbox.Store.CompleteUnknown` | internal/taskoutbox/outbox.go:256-281 | one interrupted lease gets the unknown-outcome result, exit code -1, which is durable before it is used |
| `TaskOutbox.Store.RecoverInterrupted` | internal/taskoutbox/outbox.go:237-285 | on success every entry is completed and durable, a completed one as it was and an interrupted one with an unknown outcome; at any crash it only gave such outcomes to awaiting entries that are not linechain ones |
| `TaskOutbox.Store.Pending` | internal/taskoutbox/outbox.go:288-309 | returns exactly the completed entries, each once, and only while durability is confirmed |
| `TaskOutbox.Store.Remove` | internal/taskoutbox/outbox.go:322-334 | success removes exactly this entry, durably; an unconfirmed unlink sets the flag |
| `TaskOutbox.Store.LosePower` | internal/taskoutbox/outbox.go:484-505 | each file independently holds one of the contents it may survive with |
| `Linechain.ReachableJournalsValidate` | internal/linechain/manager.go:513-567 | in every state the agent can stop in, every journal present passes the validation all readers start with, so a journal without a result has backups with exactly its digests |
| `Linechain.PairMatchesMeans` | internal/linechain/manager.go:884-894 | the digest comparison holds if and only if the pair on disk is the one the transaction found, or the one it asks for |
| `Linechain.PublishKeepsInv` | internal/linechain/manager.go:409-420 | publishing the old or the desired content of one file keeps journal, backups and files consistent and changes no other file |
| `Linechain.JournalKeepsInv` | internal/linechain/manager.go:406-427 | a journal write that fits the disk keeps the invariant |
| `Linechain.DroppingBackupsKeepsInv` | internal/linechain/manager.go:832-840 | any part of the backups of a resolved journal may go |
| `Linechain.DroppingJournalKeepsInv` | internal/linechain/manager.go:832-840 | removing a journal keeps the invariant |
| `Linechain.Manager.PublishFile` | internal/linechain/manager.go:957-968 | replaces or removes one file, or nothing; success means it did |
| `Linechain.Manager.WriteBackups` | internal/linechain/manager.go:401-405 | success means both backups hold the contents found |
| `Linechain.Manager.CheckRestartVerify` | internal/linechain/manager.go:666-679 | success means the service was checked on exactly these files; what the check said is recorded |
| `Linechain.Manager.Apply` | internal/linechain/manager.go:301-428 | a retry resolves its own journal, in a settlement that is justified, and its success names the pair on disk; a first call for files the document is not about changes nothing; otherwise without a journal nothing changed, and success means the pair the document asks for is on disk, journaled and verified |
| `Linechain.Manager.ApplyFresh` | internal/linechain/manager.go:365-428 | the same for the first call: a journal exists, and so any file changed, only if the fragment found is the one the document replaces and its patch applies; only the named pair can change, and a journal left behind records the pair found and the pair asked for |
| `Linechain.Manager.Transact` | internal/linechain/manager.go:396-427 | files change only once a journal with both backups exists |
| `Linechain.Manager.Advance` | internal/linechain/manager.go:409-420 | one publication and the next phase, in this order, or the old pair is rolled back |
| `Linechain.Manager.Publish` | internal/linechain/manager.go:409-427 | fragment, then sidecar, then verification; success means the desired pair was verified as it stands |
| `Linechain.Manager.VerifyPublished` | internal/linechain/manager.go:423-427 | a service that does not come up on the new pair rolls it back |
| `Linechain.Manager.Rollback` | internal/linechain/manager.go:842-850 | never reports success, and keeps the transaction recoverable |
| `Linechain.Manager.RestorePair` | internal/linechain/manager.go:852-873 | success means the pair is exactly the one found when the transaction began |
| `Linechain.Manager.RestoreOld` | internal/linechain/manager.go:852-882 | success means the old pair is back, confirmed and journaled as restored |
| `Linechain.FailureNotHidden` | internal/linechain/manager.go:716-728 | a justified settlement never turns a failed run into a success and keeps its exit code and error |
| `Linechain.Manager.Conclude` | internal/linechain/manager.go:730-736 | a result is journaled together with how it came about |
| `Linechain.Manager.SettleOld` | internal/linechain/manager.go:708-736 | journals a failure as terminal only with the old pair restored and the service verified on it |
| `Linechain.Manager.SettleNew` | internal/linechain/manager.go:704-705 | journals success for the desired pair as it stands, and changes no file |
| `Linechain.Manager.SettleDesired` | internal/linechain/manager.go:700-715 | with the desired pair in place the service decides: active keeps it, inactive restores the old one |
| `Linechain.Manager.Settle` | internal/linechain/manager.go:694-736 | the settlement it books is justified by the run, the phase, the pair and the service checks; a wanted pair stays unless the service is found inactive on it |
| `Linechain.Manager.ResolveAfterRun` | internal/linechain/manager.go:682-737 | exit 0 only for a clean run, a verified phase, the desired pair in place and an active service; otherwise the run's own exit code and error, or that the pair was restored; the result returned is the one journaled and names the pair on disk; without a journal only a failed run has a result; a journaled result is returned unchanged |
| `Linechain.Manager.SettleRun` | internal/linechain/manager.go:694-736 | the same for a journal without a result |
| `Linechain.Manager.RecoverOne` | internal/linechain/manager.go:775-830 | after a crash: exit 0 exactly for a verified phase with the desired pair in place and an active service, such a pair stays unless the service is inactive, everything else is restored and reported as interrupted or unverified; another script or a changed journal is refused; running it again returns the result journaled before |
| `Linechain.Manager.Cleanup` | internal/linechain/manager.go:832-840 | every stop inside leaves a directory that validates; success removes this journal and its backups only |
| `Linechain.Manager.Snapshot` | internal/linechain/manager.go:479-511 | all journals, each of them valid, or an error |
| `TaskProtocol.JointMeans` | cmd/lattice-agent/main.go:1608-1775 | spells out what links outbox, transaction directory and server at every instant |
| `TaskProtocol.NarrowingKeeps` | internal/taskoutbox/outbox.go:451-506 | a directory sync or a power loss breaks none of these links |
| `TaskProtocol.RecoveryKeeps` | internal/taskoutbox/outbox.go:237-285 | an unknown-outcome result can never differ from one the server accepted |
| `TaskProtocol.BeginKeeps` | cmd/lattice-agent/main.go:1690-1699 | journaling a lease that was never acknowledged is safe at any crash |
| `TaskProtocol.CompleteKeeps` | cmd/lattice-agent/main.go:1741-1775 | a completion is new to the server, and for a linechain lease it is the journaled result |
| `TaskProtocol.RemoveKeeps` | cmd/lattice-agent/main.go:2139-2164 | an acknowledged entry without a journal may go |
| `TaskProtocol.StartKeeps` | cmd/lattice-agent/main.go:1690-1732 | a script may start once its entry survives any crash |
| `TaskProtocol.UnjournaledNeverStarted` | cmd/lattice-agent/main.go:1690-1732 | a lease that may be missing from the outbox and was never acknowledged never started |
| `TaskProtocol.EndKeeps` | cmd/lattice-agent/main.go:1728-1732 | how a run ended breaks none of the links |
| `TaskProtocol.ReceiveKeeps` | cmd/lattice-agent/main.go:2139-2164 | an upload is safe if no crash can leave a different result behind |
| `TaskProtocol.ResolvingKeeps` | internal/linechain/manager.go:682-840 | resolving or cleaning a journal keeps every entry matched |
| `TaskProtocol.NewJournalKeeps` | internal/linechain/manager.go:396-408 | the first journal of a running lease matches its entry |
| `Provenance.TracedMeans` | cmd/lattice-agent/main.go:1675-1775 | spells out that every result, received, completed or journaled, has a source, and that every settlement is justified by a recorded run if by any |
| `Provenance.RecoveryTraced` | internal/taskoutbox/outbox.go:237-285 | recovery adds unknown outcomes only |
| `Provenance.EntryTraced` | internal/taskoutbox/outbox.go:202-221 | a completion is traced if its result is |
| `Provenance.ReceiveTraced` | cmd/lattice-agent/main.go:2139-2164 | so is what the server receives |
| `Provenance.StartTraced` | cmd/lattice-agent/main.go:1690-1732 | the report that nothing ran stays true: such a lease never starts |
| `Provenance.ChainTraced` | internal/linechain/manager.go:682-840 | settling and cleaning keep journals traced |
| `Provenance.FailureReported` | internal/linechain/manager.go:682-737 | a failed run is received as a success only if a recovery before its end had found the verified pair in place and the service active |
| `Agent.Agent.Upload` | cmd/lattice-agent/main.go:2139-2164 | asks for the entry to hold exactly this result durably; then an accepted upload keeps every link |
| `Agent.Agent.FlushOne` | cmd/lattice-agent/main.go:2145-2162 | uploads one result; then its entry is kept if and only if linechain entries are to be kept and it is one |
| `Agent.FlushedOneMore` | cmd/lattice-agent/main.go:2139-2164 | one more result received and its entry dropped |
| `Agent.Agent.Flush` | cmd/lattice-agent/main.go:2139-2164 | success means every completed result was received and exactly the linechain entries that are to be kept are left of them; with none to be kept and all completed the outbox is empty, durably; the server hears only about leases that were in it |
| `Agent.Agent.CaptureAuthority` | cmd/lattice-agent/main.go:1953-2008 | where the directories can be read, it returns all journals if and only if each has an entry that matches it and no awaiting linechain entry is without one |
| `Agent.Agent.NoOrphans` | cmd/lattice-agent/main.go:1953-2008 | in no reachable state is recovery refused for a journal without its entry |
| `Agent.Agent.CompleteRecovered` | cmd/lattice-agent/main.go:2116-2133 | the outbox then holds exactly the journaled result, durably if and only if the entry was awaiting or had nothing unsynced |
| `Agent.Agent.RecoverJournal` | internal/linechain/manager.go:746-773 | one journal: resolved, its result completed, then cleaned up |
| `Agent.Agent.RequireLinechainRecovered` | cmd/lattice-agent/main.go:2116-2133 | on success no journal is left, and each one found ended with the pair its result speaks of, the result journaled before if there was one; no file changes but the pairs of the journals found |
| `Agent.Agent.PollTasks` | cmd/lattice-agent/main.go:1608-1640 | leases are returned only with an empty durable outbox and no journal; nothing starts, and nothing received is forgotten |
| `Agent.Agent.Launch` | cmd/lattice-agent/main.go:1728-1732 | the script starts here and is recorded as started, and its outcome as what it ended with: under an entry no crash can lose, never before, and with no transaction unresolved |
| `Agent.Agent.LaunchUnjournaled` | cmd/lattice-agent/main.go:1728-1732 | the other start, which only a lease without the durable protocol can reach; its outcome is recorded too |
| `Agent.Agent.RunLinechain` | cmd/lattice-agent/main.go:1728-1732 | exactly one start; the script may call the apply helper any number of times and a helper may die alone; it leaves at most its own journal, and no file changed but its pair, under a transaction that its document asks for on the files it found |
| `Agent.Agent.ExecuteTask` | cmd/lattice-agent/main.go:1667-1775 | at most one start and one outcome, and only results of this lease; no file changes but the pair of its script; nothing at all for a protocol that is unknown, not ready or without a durable result; success means the server has exactly what the run ended with, or for a linechain lease a result that answers the run and is true of the files, and nothing is left behind |
| `Agent.Agent.ExecuteDurable` | cmd/lattice-agent/main.go:1690-1775 | the same for a journaled lease |
| `Agent.Agent.ExecuteUnjournaled` | cmd/lattice-agent/main.go:1675-1689 | the same for one without the durable protocol, with the time its result lacked |
| `Agent.Agent.RunAndResolve` | cmd/lattice-agent/main.go:1732-1741 | exactly one start; success means the server has a result that is true of the files and answers the run: its own failure that changed nothing, or the result its transaction was settled with by this run or before its end |
| `Agent.Agent.ResolveKeeping` | internal/linechain/manager.go:682-737 | what resolving a run reports answers the run and is true of the files, and it changes none but the pair |
| `Agent.Agent.Report` | cmd/lattice-agent/main.go:1741-1775 | success means exactly this result was received and nothing is left behind; no file changes |
| `Agent.Agent.PostUnjournaled` | cmd/lattice-agent/main.go:1675-1722 | the two results that never had an entry cannot collide with one that has |
| `Agent.Agent.ExecuteTasks` | cmd/lattice-agent/main.go:1647-1660 | in lease order a number of leases are served, each with a result that is its run's outcome or its transaction's, and none after the first one that was not is started; the history only grows |
| `Agent.Agent.Run` | cmd/lattice-agent/main.go:578-596 | over any number of processes, crashes and power losses: the history only grows, no journaled script starts twice, no lease gets two results, and every result received is the outcome of a run, the result of a justified settlement, an unknown outcome, or the report of a lease that never started |
| `TaskWorker.StepKeepsBatch` | cmd/lattice-agent/main.go:1870-1923 | a batch is in exactly one place while the busy flag is set |
| `TaskWorker.FetchKeepsDownloads` | internal/prefetch/prefetch.go:373-458 | starting, ending and recording a download keeps at most one running and none while held |
| `TaskWorker.WorkerKeepsDownloads` | cmd/lattice-agent/main.go:1870-1884 | hold, run and release keep it |
| `TaskWorker.MainKeepsDownloads` | cmd/lattice-agent/main.go:1898-1946 | polls, sends and shutdown keep it |
| `TaskWorker.InvIsSafe` | internal/prefetch/prefetch.go:307-337 | the invariant implies the four safety statements |
| `TaskWorker.RunsAreSafe` | cmd/lattice-agent/main.go:1870-1946 | every state of every interleaving is safe |
| `TraceShed.ShedMeans` | internal/traceshed/guard.go:166-219 | an id is shed if and only if it was marked within the last capacity marks and not cleared since |
| `TraceShed.ShedWithinCapacity` | internal/traceshed/guard.go:166-219 | never more ids than the capacity are shed |
| `TraceShed.EvictingKeepsMap` | internal/traceshed/guard.go:191-205 | evicting a slot removes exactly the mark that left the window, never a newer one of the same id |
| `TraceShed.ShedRing.Has` | internal/traceshed/guard.go:186-189 | equals the definition over the history of marks and clears |
| `TraceShed.ShedRing.Add` | internal/traceshed/guard.go:191-205 | the ring stands for the history with one more mark |
| `TraceShed.ShedRing.Remove` | internal/traceshed/guard.go:207-211 | the ring stands for the history with one more clear |
| `TraceShed.ShedRing.Reset` | internal/traceshed/guard.go:215-219 | the history starts over |
| `TraceShed.Guard.Roll` | internal/traceshed/guard.go:84-90 | the window always contains now and restarts only when it did not |
| `TraceShed.Guard.Ceiling` | internal/traceshed/guard.go:97-107 | an entry passes if and only if the entries of its second, counted from where the window began, are within four budgets, and each one cut is counted |
| `TraceShed.Guard.Admit` | internal/traceshed/guard.go:117-145 | the count of its second, who is kept, that the id is shed afterwards if and only if it was not kept, that shedding is counted once, the decision as it is recorded, and exactly what it does to the marks: one cleared when a shed id is reused, one made when an id is newly shed |
| `TraceShed.Guard.Decide` | internal/traceshed/guard.go:130-145 | the same for one line of a connection |
| `ShedMarks.ShedWhileStanding` | internal/traceshed/guard.go:166-219 | a decision finds its id shed if and only if a mark of it, made since the last reset, was not cleared and is one of the last as many as the ring holds |
| `ShedMarks.StaysSilent` | internal/traceshed/guard.go:3-9 | no line of a shed connection is kept before an inbound-from line, a reset, or eviction from the ring |
| `ShedMarks.MarksLasted` | internal/traceshed/guard.go:117-219 | both, for every decision of a run |
| `TraceShed.Guard.Reset` | internal/traceshed/guard.go:149-153 | nothing is shed, and a new epoch of marks begins |
| `DoneIds.RememberAdds` | internal/sessionasm/sessionasm.go:1076-1088 | remembering adds this id, may forget the oldest, and keeps the size within capacity |
| `DoneIds.DoneSet.Has` | internal/sessionasm/sessionasm.go:1090-1093 | membership in the remembered ids |
| `DoneIds.DoneSet.Add` | internal/sessionasm/sessionasm.go:1076-1088 | map and ring stand for the ids remembered, oldest first |
| `DoneIds.DoneSet.Reset` | internal/sessionasm/sessionasm.go:1095-1099 | nothing is remembered |
| `SessionConn.EvalStallHonest` | internal/sessionasm/sessionasm.go:671-687 | a stall is marked only between equal samples that bracket the quiet window, at the instant it began |
| `SessionConn.JoinHonest` | internal/sessionasm/sessionasm.go:623-665 | a joined sample makes the counters known and the last sample's, and keeps every claim supported |
| `SessionConn.FinalHonest` | internal/sessionasm/sessionasm.go:772-809 | a final record names an ending only if a line named it or the core restarted |
| `SessionConn.WatchedOk` | internal/sessionasm/sessionasm.go:724-754 | an open snapshot claims no ending and no more than was measured |
| `SessionConn.StrongestFirst` | internal/sessionasm/sessionasm.go:533-539 | over any sequence of offers the strongest evidence is kept, and of equally strong the first |
| `SessionConn.ErrorNotHidden` | internal/sessionasm/sessionasm.go:994-1004 | over any sequence of half closes the first one with an error decides, whatever clean ones come before or after |
| `SessionConn.NamedHalves` | internal/sessionasm/sessionasm.go:508-531 | with named directions each side is closed exactly when it said so |
| `SessionConn.UnnamedHalves` | internal/sessionasm/sessionasm.go:508-531 | without names the second half close completes, and the grace runs from the first |
| `SessionConn.FoldedKeeps` | internal/sessionasm/sessionasm.go:371-452 | what each kind of line fills in; the duration never walks back, a second outbound line only shows life, and an outbound line never overwrites a destination |
| `SessionConn.EndsExactly` | internal/sessionasm/sessionasm.go:461-531 | which lines end a connection |
| `SessionConn.StatedMeans` | internal/sessionasm/sessionasm.go:461-507 | what each closing line says, and what outranks what |
| `SessionConn.StallExactly` | internal/sessionasm/sessionasm.go:671-687 | a stall is marked exactly when the connection is older than the floor and its samples since bytes last moved span the quiet time |
| `SessionConn.HalfOk` | internal/sessionasm/sessionasm.go:508-539 | offering a half close keeps the strongest evidence and only what lines said |
| `SessionIndex.SoundMeans` | internal/sessionasm/sessionasm.go:274-282 | map, ordered list and source index describe the same connections, each honest |
| `SessionIndex.ForgetSound` | internal/sessionasm/sessionasm.go:812-821 | forgetting keeps the three in agreement and gives up only a source key it still holds |
| `SessionIndex.CreateSound` | internal/sessionasm/sessionasm.go:335-368 | creating keeps them in agreement |
| `SessionIndex.ReindexSound` | internal/sessionasm/sessionasm.go:826-836 | a reused source key moves to the newer connection |
| `SessionIndex.UnindexedMeans` | internal/sessionasm/sessionasm.go:818-820 | forgetting takes exactly the key it still holds |
| `SessionIndex.ReindexedMeans` | internal/sessionasm/sessionasm.go:826-836 | the key moves, the one held before goes if still held, and no other changes |
| `SessionFate.FinalRecordMeans` | internal/sessionasm/sessionasm.go:772-792 | when a final record says it ended, how, and how long it lasted by the core or by the agent's clock; everything else is as recorded |
| `SessionFate.TickEnds` | internal/sessionasm/sessionasm.go:691-754 | by its fields: a connection the newest poll lists ends at a tick only after silence for the TTL; a half close whose grace is over ends any other, as it said and when it came; an orphan ends now as unknown; whoever goes on emits no final record and is published when due |
| `SessionFate.PollEnds` | internal/sessionasm/sessionasm.go:597-620 | by its fields: whoever this poll lists, or none ever did, goes on and emits nothing; any other ends at the poll, with what it said or unknown by the agent's clock |
| `SessionFate.ItemTells` | internal/sessionasm/sessionasm.go:551-565 | an item tells about the holder of its source unless it started over half a minute before it, and about no other |
| `SessionIndex.NewestPoll` | internal/sessionasm/sessionasm.go:597-620 | what the sweep leaves was listed in the newest poll |
| `SessionIndex.SweepDone` | internal/sessionasm/sessionasm.go:597-620 | visiting the connections one by one ends exactly those a sweep should end and emits their records in order of creation |
| `SessionIndex.TickDone` | internal/sessionasm/sessionasm.go:691-732 | visiting them one by one gives exactly the open connections, the evidence and the records of a tick |
| `SessionLists.OneMorePassed` | internal/sessionasm/sessionasm.go:812-821 | passing one more connection: if it ended it leaves the creation order and is remembered last, otherwise both stay |
| `SessionLists.AllPassed` | internal/sessionasm/sessionasm.go:597-620 | after all of them the order holds those still open, as they were ordered, and the others were remembered in that order |
| `SessionLine.FoldsMeans` | internal/sessionasm/sessionasm.go:371-504 | what a line of an open connection does: to the connection, the creation order, the source index, what is known, the finished ids and what is emitted |
| `SessionLine.BeginsMeans` | internal/sessionasm/sessionasm.go:285-368 | what a first line does: who makes room and is remembered, that the new connection comes last, what it is, and what is emitted on the way |
| `SessionLine.FoldsBegin` | internal/sessionasm/sessionasm.go:335-368 | making room, creating and folding the first line in is a beginning |
| `SessionLine.CollidesFirst` | internal/sessionasm/sessionasm.go:302-314 | and so it is when the id was taken, after one more record of unknown ending |
| `SessionAsm.EveryRecordHonest` | internal/sessionasm/sessionasm.go:772-809 | every record ever emitted says no more than was known of its connection when it was emitted |
| `SessionAsm.Assembler.Finish` | internal/sessionasm/sessionasm.go:772-809 | exactly this connection leaves, becomes done, and is recorded with this ending, instant, duration and what is known of it, or counted as partial |
| `SessionAsm.Assembler.EvictOldest` | internal/sessionasm/sessionasm.go:842-851 | the first in the order of creation leaves every index without a record, is remembered as done and counted |
| `SessionAsm.Assembler.Create` | internal/sessionasm/sessionasm.go:335-368 | one more is tracked, last in order, started as long ago as its line says and with nothing known of it; the cap holds, and the oldest is dropped if and only if it was reached |
| `SessionAsm.Assembler.Insert` | internal/sessionasm/sessionasm.go:364-366 | a new connection is last in the order of creation |
| `SessionAsm.Assembler.Retire` | internal/sessionasm/sessionasm.go:812-821 | exactly this connection leaves map, order and source index, and is remembered as done |
| `SessionAsm.Assembler.IndexSrc` | internal/sessionasm/sessionasm.go:826-836 | the source index after the move |
| `SessionAsm.Assembler.Apply` | internal/sessionasm/sessionasm.go:371-504 | the open connections, their order, the source index, what is known, the finished ids and what is emitted, exactly, after each kind of line |
| `SessionAsm.Assembler.CloseTerminal` | internal/sessionasm/sessionasm.go:461-486 | a terminal line ends it at once with what the line said |
| `SessionAsm.Assembler.CloseHalf` | internal/sessionasm/sessionasm.go:488-531 | it ends with its second half and the strongest evidence, and otherwise waits |
| `SessionAsm.Assembler.Collide` | internal/sessionasm/sessionasm.go:302-314 | the older connection on a reused id ends as unknown |
| `SessionAsm.Assembler.Line` | internal/sessionasm/sessionasm.go:285-331 | a connection is created exactly for an inbound-from line or an untracked id, and one is dropped exactly if that needs room; the open connections, their order, the source index, evidence, finished ids and records after each kind of line, exactly; a line of a finished id changes nothing |
| `SessionAsm.Assembler.Snapshot` | internal/sessionasm/sessionasm.go:542-567 | what is open, in which order, what is known, done and emitted afterwards, exactly, and by the fields of each connection who ends, when and as what; every sampled connection left was listed in this poll |
| `SessionAsm.Assembler.JoinItem` | internal/sessionasm/sessionasm.go:551-565 | an item counts for the holder of its source key unless it started over half a minute before it, its sample joins what is known of it, and no other connection changes |
| `SessionAsm.Assembler.SweepVanished` | internal/sessionasm/sessionasm.go:597-620 | exactly the connections listed before and not now end, leave the order, are done, and their records are emitted, in order of creation |
| `SessionAsm.Assembler.Vanish` | internal/sessionasm/sessionasm.go:601-616 | the record it leaves: with what it said, or unknown at the poll instant |
| `SessionAsm.Assembler.Tick` | internal/sessionasm/sessionasm.go:691-732 | by the fields of each connection who ends, when and as what, and who goes on; the order, the finished ids, the orphan count, what is known and what is emitted, exactly |
| `SessionAsm.Assembler.TickOne` | internal/sessionasm/sessionasm.go:698-731 | whether it ends or goes on, what is known afterwards, and the record it leaves |
| `SessionAsm.Assembler.Expire` | internal/sessionasm/sessionasm.go:702-722 | which of the two ends it is, the orphan counted, and the record |
| `SessionAsm.Assembler.Watch` | internal/sessionasm/sessionasm.go:724-754 | a stall mark with its evidence and, when due, one open snapshot |
| `SessionAsm.Assembler.RestartCore` | internal/sessionasm/sessionasm.go:856-878 | everything open ends with its record, in order and in the old generation, is counted as swept, and all ids are forgotten |
| `SessionAsm.Assembler.IsTracked` | internal/sessionasm/sessionasm.go:926-933 | open or remembered as done; the answer is recorded |
| `SessionAsm.Assembler.Drain` | internal/sessionasm/sessionasm.go:881-888 | everything emitted since the last call, in order; with it every record ever emitted has been drained once |
| `Verdicts.Together` | cmd/lattice-agent/tracesource.go:841-848 | if every decision agrees with the ones before it, all lines of a connection are on one side from the line on where it came to that side, and that line is found in the decisions alone |
| `Verdicts.TrueAnswersFollow` | internal/traceshed/guard.go:117-145 | a decision made on a true answer agrees with the ones before it |
| `Verdicts.OneMorePlaced` | cmd/lattice-agent/tracesource.go:841-848 | one more decision keeps every tracked and every shed id on its side |
| `Verdicts.Apart` | internal/traceshed/guard.go:109-116 | no id is tracked and shed |
| `Collector.ExplainedMeans` | cmd/lattice-agent/tracesource.go:807-848 | the outcomes of a stream account for every line fed and every decision made, in order, and for no other |
| `Collector.TrueAnswer` | cmd/lattice-agent/tracesource.go:844-848 | one decision on a true answer keeps connections whole |
| `Collector.Stream.Others` | cmd/lattice-agent/tracesource.go:1001-1139 | whatever the goroutines that feed no lines do, they track no new id, shed none, feed nothing and decide nothing, and marks go only by a reset |
| `Collector.Stream.Admit` | cmd/lattice-agent/tracesource.go:844-848 | the decision it adds, which keeps a held connection and withholds a shed one until an inbound-from line clears it, agrees with all before it, and changes no mark but that of its own id |
| `Collector.Stream.OnEntry` | cmd/lattice-agent/tracesource.go:807-848 | with interference between any two calls: exactly one decision for a line with an id that is read, none otherwise; the line is fed if and only if kept; a held connection is kept, and a line is withheld only as one of a shed connection or is counted |
| `Collector.Stream.Run` | cmd/lattice-agent/tracesource.go:799-848 | with one stream at a time, of the lines that were read: every tracked connection was fed whole since the line it came to be tracked by, every shed one withheld whole since the line it was shed by, nothing else was fed or decided, and no line of a shed connection was kept before an inbound-from line, a reset, or eviction from the ring |
| `Overlap.AdmitOn` | cmd/lattice-agent/tracesource.go:713-741 | with any answer a stream still holds, deciding leaves a connection tracked and shed if and only if it says "not tracked" of an id that is tracked by now and the second is over budget |
| `Overlap.FeedOn` | cmd/lattice-agent/tracesource.go:713-741 | feeding a kept line does if and only if its id was shed since |
| `Overlap.TornApart` | internal/singboxapi/logs.go:104-110 | an interleaving of a cancelled and a new stream that leaves a connection tracked and shed |
| `LineRate.ShownIsExact` | cmd/lattice-agent/tracesource.go:365-385 | the counters are exact if and only if no second saw 2^32 lines |
| `LineRate.SlotAdds` | cmd/lattice-agent/tracesource.go:376-385 | what one slot adds is what its second saw, and nothing for the second in progress |
| `LineRate.WholeRing` | cmd/lattice-agent/tracesource.go:376-385 | around the ring every second of the window is met once |
| `LineRate.Counter.CountLine` | cmd/lattice-agent/tracesource.go:365-372 | the ring stands for the history with one more line |
| `LineRate.Counter.LinesPerSecond` | cmd/lattice-agent/tracesource.go:376-385 | with a clock that never stepped back, the mean over exactly the last ten whole seconds |
| `Terminal.OutputRing.Append` | cmd/lattice-agent/terminal_stream.go:104-113 | the buffer is the last bytes of all output |
| `Terminal.OutputRing.TailFrom` | cmd/lattice-agent/terminal_stream.go:117-126 | the output from the offset on; a gap if and only if the offset was evicted |
| `Terminal.Sink.Write` | cmd/lattice-agent/terminal_stream.go:144-154 | always recorded; the live connection gets a prefix, all of it if it stays attached, and is detached if and only if the write failed |
| `Terminal.Sink.ResumeOnce` | cmd/lattice-agent/terminal_stream.go:160-180 | replays exactly what is missing, goes live if and only if that was written, and does nothing for the live connection |
| `Terminal.Sink.Detach` | cmd/lattice-agent/terminal_stream.go:182-188 | detaches this connection only |
| `Terminal.Replayed` | cmd/lattice-agent/terminal_stream.go:160-180 | an exact replay completes what the browser has to the whole output |
| `Terminal.ExactStepFaithful` | cmd/lattice-agent/terminal_stream.go:133-188 | a step that is exact, a resume from what the browser has with nothing evicted or any other step, keeps what it shows a prefix of the output |
| `Terminal.AlwaysPrefix` | cmd/lattice-agent/terminal_stream.go:133-188 | and so does any run of exact steps |
| `Terminal.Session.Take` | cmd/lattice-agent/terminal_stream.go:431-442 | what output, reconnect, resume, drop and render do to what was sent and what is shown |
| `Terminal.Session.Run` | cmd/lattice-agent/terminal_stream.go:133-188 | exactly these steps are taken; if each is exact, the browser shows a prefix of the output |
| `MonitorQueue.BalancedCovers` | cmd/lattice-agent/monitor_results.go:13-31 | every result that left the queue was answered or overflowed, and dropped, with what is owed, covers every result the server lacks |
| `MonitorQueue.ShortWhileOwed` | cmd/lattice-agent/monitor_results.go:201-203 | a queue between settling and counting where dropped falls short |
| `MonitorQueue.ShortExactlyWhileOwed` | cmd/lattice-agent/monitor_results.go:201-203 | with exact answers, all settled, the server lacks exactly dropped plus what is owed, so dropped covers it if and only if nothing is owed |
| `MonitorQueue.ReplyExact` | cmd/lattice-agent/monitor_results.go:188-206 | an answer that says exactly what was not stored keeps the count exact |
| `MonitorQueue.OverflowExact` | cmd/lattice-agent/monitor_results.go:88-91 | so does an overflow of a result the server does not have |
| `MonitorQueue.CountExact` | cmd/lattice-agent/monitor_results.go:203-203 | so does counting what is owed |
| `MonitorQueue.StoreExact` | cmd/lattice-agent/monitor_results.go:188-200 | so does a request without a final answer |
| `MonitorQueue.Queue.Request` | cmd/lattice-agent/monitor_results.go:182-200 | what a reply adds to the account, and that it stays exact if and only if all of the batch was still queued and a final reply said exactly what was not stored |
| `MonitorQueue.Queue.PostAndSettle` | cmd/lattice-agent/monitor_results.go:182-201 | between settling and counting an exact count is short by exactly what is owed |
| `MonitorQueue.OverflowBalances` | cmd/lattice-agent/monitor_results.go:88-91 | an overflow is counted as it happens |
| `MonitorQueue.AnswerBalances` | cmd/lattice-agent/monitor_results.go:188-206 | a final answer owes the count at most what it did not store |
| `MonitorQueue.Queue.Push` | cmd/lattice-agent/monitor_results.go:83-92 | the queue stays the run of numbers that ends at the newest; one is dropped and counted if and only if it was full; the count stays exact unless the server had that one or had answered for it |
| `MonitorQueue.Queue.Head` | cmd/lattice-agent/monitor_results.go:118-125 | up to n of the oldest, consecutive |
| `MonitorQueue.Queue.Settle` | cmd/lattice-agent/monitor_results.go:130-140 | everything up to this number leaves and nothing after it, whatever overflow took meanwhile |
| `MonitorQueue.Queue.SendBatch` | cmd/lattice-agent/monitor_results.go:182-212 | an answer or a 400, and nothing else, settles the whole batch and counts what the answer lists or the batch; anything else leaves it queued; an exact count then is what the server lacks |
| `MonitorQueue.Queue.SendSingles` | cmd/lattice-agent/monitor_results.go:217-231 | success means every request decided its result and the batch is settled; a failure means the last one did not; a result no request decided is still queued unless overflow took it |
| `MonitorQueue.Queue.RequestSingle` | cmd/lattice-agent/monitor_results.go:219-228 | final if and only if the result was taken or refused with a status below 500 other than 401 and 429; a refusal is counted at once, and whether the count stays exact; otherwise nothing is counted or settled |
| `MonitorQueue.Queue.SendSingle` | cmd/lattice-agent/monitor_results.go:218-229 | the result is settled if and only if its request decided it |
| `MonitorQueue.Queue.UndecidedStays` | cmd/lattice-agent/monitor_results.go:213-231 | a result that no request decided is still queued as it was pushed, unless overflow took it |
| `MonitorQueue.Queue.Send` | cmd/lattice-agent/monitor_results.go:160-177 | the batch route is used unless it was missing in the last half hour; a missing one is left alone for exactly that long |
| `MonitorQueue.Queue.Flush` | cmd/lattice-agent/monitor_results.go:156-180 | success means every request went through and the queue was seen empty or five batches went out, each settling at least one result; a failure means the last request decided nothing; a result no request decided is still queued unless overflow took it; nothing is owed, and an exact count is what the server lacks |
| `Breaker.NothingAhead` | internal/beacon/guard.go:121-140 | a second the clock has not reached is not hot |
| `Breaker.ShiftedBits` | internal/beacon/guard.go:132-137 | what a shift does to each bit of the word |
| `Breaker.NextBit` | internal/beacon/guard.go:127-138 | where each bit of the word comes from once a second closes after any gap |
| `Breaker.Advanced` | internal/beacon/guard.go:123-140 | over any gap the shifted word remembers exactly the hot seconds |
| `Breaker.OnesAreHotSeconds` | internal/beacon/guard.go:164-175 | the ones of the masked word count the hot seconds of the last 59 |
| `Breaker.SecondsMeans` | internal/beacon/guard.go:148-157 | instants count for the whole second they are in, toward zero |
| `Breaker.OnesCount` | internal/beacon/guard.go:170-170 | the number of bits set |
| `Breaker.Breaker.Advance` | internal/beacon/guard.go:123-140 | the fields say what the full history says, for every clock, stepping back included |
| `Breaker.Breaker.Record` | internal/beacon/guard.go:147-152 | the breaker stands for the history with one more datagram |
| `Breaker.Breaker.Saturate` | internal/beacon/guard.go:156-159 | the breaker stands for the history with one more saturated second |
| `Breaker.Breaker.Open` | internal/beacon/guard.go:164-175 | true if and only if at least 54 of the last 60 seconds were hot and the oldest of them was |
| `Breaker.Breaker.HotSecondsCount` | internal/beacon/guard.go:179-185 | the number of hot seconds among the last 60 |
| `LogTail.SplitJoined` | internal/logtail/logtail.go:188-195 | complete lines put together and split again are the same lines |
| `LogTail.ReadsAreLines` | internal/logtail/logtail.go:157-196 | where every line fits one read, the pieces read are exactly the newline split of the bytes consumed |
| `LogTail.ShownMeans` | internal/logtail/logtail.go:183-195 | a line loses its newline, one carriage return before it and what is over the limit; a broken-off piece only the latter |
| `LogTail.SplitLines` | internal/logtail/logtail.go:188-195 | the newline split, each line without its newline and a carriage return, cut to the limit |
| `LogTail.Consume` | internal/logtail/logtail.go:179-195 | takes everything up to the last newline; takes nothing if and only if there is none and the read was not full |
| `LogTail.Tailer.Resume` | internal/logtail/logtail.go:52-61 | goes on from the checkpoint |
| `LogTail.Tailer.EnsureOpen` | internal/logtail/logtail.go:83-115 | where reading starts: the end without a checkpoint, the checkpoint, or 0 when it is past the end; a seek that fails leaves the start already decided |
| `LogTail.Tailer.ReadLines` | internal/logtail/logtail.go:161-196 | the pieces are the file's bytes from the old to the new offset, and the lines are what they show |
| `LogTail.Tailer.Poll` | internal/logtail/logtail.go:122-155 | on a file that was not replaced or shrunk the offset moves past exactly what was returned, also while its path leads nowhere; otherwise a new incarnation starts at 0 |
| `LogTail.Tailer.PollOn` | internal/logtail/logtail.go:122-155 | a poll of an unreplaced file goes on exactly where the last one ended |
| `LogTail.Tailer.Follow` | internal/logtail/logtail.go:122-196 | over any polling schedule of a growing file whose lines fit one read, the lines returned are exactly the newline split of the bytes consumed, each without a carriage return and cut to the limit |
| `LogShip.SettledOff` | cmd/lattice-agent/logtail.go:263-301 | the oldest pending lines leave together, as received or as dropped, each as often as it occurs |
| `LogShip.ArrivedGood` | cmd/lattice-agent/logtail.go:275-300 | a batch that arrived, whether its answer did or not, keeps what was received at least as often as the account says |
| `LogShip.DroppedGood` | cmd/lattice-agent/logtail.go:265-269 | lines given up are in a count that was or will be sent |
| `LogShip.SavedGood` | cmd/lattice-agent/logtail.go:302-304 | with nothing left to send the account of the last checkpoint and of this run join without a gap |
| `LogShip.AccountedLines` | cmd/lattice-agent/logtail.go:302-304 | where lines fit one read, the lines before the checkpoint are, counted with repetitions, exactly those received and those in a reported drop count |
| `LogShip.Shipper.constructor` | cmd/lattice-agent/logtail.go:223-235 | a run goes on exactly at the checkpoint |
| `LogShip.Shipper.Tick` | cmd/lattice-agent/logtail.go:239-305 | after a poll what is pending is sent until a batch is not confirmed, and a checkpoint is written exactly when all of it was; it is saved only with nothing pending, at the tailer's offset |
| `LogShip.Shipper.Collect` | cmd/lattice-agent/logtail.go:245-270 | polled lines are queued and the queue is bounded |
| `LogShip.Shipper.Drop` | cmd/lattice-agent/logtail.go:265-269 | the oldest go and are counted |
| `LogShip.Shipper.ShipBatch` | cmd/lattice-agent/logtail.go:275-300 | success means the server received exactly these lines once more and the drops so far; failure leaves them pending |
| `LogShip.Shipper.Save` | cmd/lattice-agent/logtail.go:302-304 | every line before the saved offset was received as often as it occurs or is in a drop count the server has |
| `LogShip.Live` | cmd/lattice-agent/logtail.go:223-306 | over any number of restarts every line from where the first checkpoint began to the newest was received as often as it occurs or counted |
| `SidecarPatch.ChainKeepsIdentities` | internal/linechain/sidecar_patch.go:120-197 | changing one chain keeps every identity, so they stay unique |
| `SidecarPatch.FindSource` | internal/linechain/sidecar_patch.go:134-158 | finds the source if and only if the list is valid and one inbound has both its id and its tag |
| `SidecarPatch.Merge` | internal/linechain/sidecar_patch.go:122-197 | succeeds if and only if the sidecar is valid and the source leads where expected; then only its chain changed and leads where desired |
| `SidecarPatch.SwappedApplies` | internal/linechain/sidecar_patch.go:122-227 | after a merge the swapped patch is applicable |
| `SidecarPatch.SwappedRestores` | internal/linechain/sidecar_patch.go:122-227 | and restores the earlier downstream identity, changing nothing but that chain |
| `SidecarPatch.ApplyAndRevert` | internal/linechain/sidecar_patch.go:122-227 | both, one after the other, on the agent's own rules |
| `SidecarCycle.UUIDGroups` | internal/singboxdiscover/discover.go:738-754 | a line id is five groups of lower-case hexadecimal digits with version 4 and its variant |
| `SidecarCycle.LowerMeans` | internal/singboxdiscover/discover.go:699-714 | ids are compared in lower case, and only letters change |
| `SidecarCycle.StaysOn` | internal/singboxdiscover/discover.go:723-734 | whoever is on a cycle goes on and stays on it |
| `SidecarCycle.TrailCloses` | internal/singboxdiscover/discover.go:729-731 | a trail that comes back holds a cycle |
| `SidecarCycle.Follow` | internal/singboxdiscover/discover.go:724-733 | ends; an error means a cycle exists, success that none goes through this line |
| `SidecarCycle.FollowAll` | internal/singboxdiscover/discover.go:723-735 | success if and only if there is no cycle at all |
| `SidecarCycle.Validate` | internal/singboxdiscover/discover.go:691-736 | accepts if and only if the schema is the known one, every entry has a tag and version 4 ids, tags and ids are distinct, and no chain of downstream edges returns to a local line |

## Left out

- Linechain.Manager.Snapshot: an unreadable directory is any error; that it then fails is not stated as an if-and-only-if.
- TaskOutbox.Store.Pending: does not state the order of the entries, because every order keeps the protocol safe.
- LineRate.Counter.CountLine: seconds before 1970 are not modelled, because the ring index of a negative second is out of range in the original.
- SessionAsm.Assembler.Line: user, tag, rule, sniffing, DNS, network and session fields of a record are not modelled, and the agent's own explanatory error texts are empty; none of them decides what is tracked or claimed.
- SessionAsm.Assembler.Snapshot: a connection is a value looked up by its log id, so aliasing of one connection object by three indexes is not modelled; the done ids are held as the contents that DoneIds.DoneSet is proved to keep.
- LogShip.Live: a file that is replaced or cut short while the agent is down is not covered, because the old checkpoint may then point into the new file.
- SessionConn.FinalHonest: the table that reads a close reason off an error text is a parameter, because the rule holds for every table.
- Linechain.Manager.Cleanup: takes its unlinks as durable at once; in the original a directory sync follows, and if it fails a later power loss can bring the journal back after its entry was dropped, which makes the agent block.
- Agent.Agent.RunLinechain: assumes that a linechain script feeds the apply helper only its own decoded document, which the runner does not check.
- Collector.Stream.Run: holds with one log stream at a time; while a level change lets two overlap it does not, and Overlap says which steps break it.
- MonitorQueue.BalancedCovers: is an inequality, because a server may answer with a drop count that is too high, and a result may overflow that the server already has.
- Linechain and the outbox assume one agent process, a manager configured in every process, and no outside writer to the transaction files.
- Starts and single results are proved for leases with the durable protocol; a lease without it has no journal to prove it from.
- Liveness: a linechain lease without a journal blocks on purpose, and nothing says that a result is eventually delivered, or that a step of the outbox or of a transaction succeeds where the disk and the service let it.
- Byte-level JSON, regular expressions and SHA-256: decoded values, predicates and symbolic digests instead.
- HTTP, WebSocket, PTY, UDP, ICMP, DNS and gRPC I/O, file ownership and modes, locks, cgroups and process trust.
- Prefetch's range requests, disk-space check and pruning; only its hold and download interleaving is modelled.
- The beacon's per-second datagram budget and its bucket array, whose properties are one comparison each.
- Capture sessions and the raw-line queue of the trace collector, and the trace shipper.
- The checkpoint's binding to a source path, and what happens to unshipped lines before the first checkpoint: without one a run starts at the end of the file by design.
- The control-plane witness, self-update, metrics, host facts, IP discovery, keepalive and watchdog.
