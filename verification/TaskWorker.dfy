/** The goroutines around the lease cycle, one lock region or channel operation
    at a time: the main loop, the worker, and the prefetcher's downloads
    (cmd/lattice-agent/main.go, internal/prefetch/prefetch.go). */
module TaskWorker {
  import opened Common

  /** Where the main loop is. Recovering and Polling touch the outbox. */
  datatype MainAt = Between | Recovering | Polling | HasLeases | Sending | Stopping | Closing
      | AwaitingRun(run: Option<nat>) | Stopped

  /** Where the worker is. Executing touches the outbox and runs task code. */
  datatype WorkerAt = Receiving | Received | Holding(run: Option<nat>) | Executing | Executed | Released | Exited

  /** One download: its file is open, closed again, its end is recorded, and
      its done channel is closed. */
  datatype FetchAt = Downloading | Returned | Recorded | Finished

  datatype System = System(
    main: MainAt, worker: WorkerAt, busy: bool, batches: nat, channelClosed: bool,
    held: nat, closed: bool, run: Option<nat>, fetches: seq<FetchAt>)

  /** The channel that hands batches to the worker has room for one. */
  const BATCH_BUFFER := 1

  const INITIAL := System(Between, Receiving, false, 0, false, 0, false, None, [])

  datatype Action =
    | BeginRecovery | EndRecovery                      // main.go:583-596
    | BeginPoll | EndPoll(leased: bool)                // taskWorker.poll
    | SetBusy | SendBatch
    | Shutdown | WaitOver | ClosePrefetch | HoldForClose | CloseDone
    | Receive | HoldStart | HoldDone | BatchDone | Release | SetIdle | WorkerExit
    | Update(start: bool)                              // kickLocked from a config pull
    | FetchReturns(id: nat) | FetchRecords(id: nat, start: bool) | FetchFinishes(id: nat)

  /** kickLocked starts a download only when none runs, nobody holds and the
      prefetcher is not closed; `start` is whatever its other checks decide. */
  function Kick(s: System, start: bool): System {
    if start && !s.closed && s.held == 0 && s.run.None?
    then s.(run := Some(|s.fetches|), fetches := s.fetches + [Downloading])
    else s
  }

  predicate RunFinished(s: System, run: Option<nat>) {
    run.Some? ==> run.value < |s.fetches| && s.fetches[run.value] == Finished
  }

  ghost predicate Next(s: System, a: Action, t: System) {
    match a
    case BeginRecovery => s.main == Between && !s.busy && t == s.(main := Recovering)
    case EndRecovery => s.main == Recovering && t == s.(main := Between)
    case BeginPoll => s.main == Between && !s.busy && t == s.(main := Polling)
    case EndPoll(leased) => s.main == Polling && t == s.(main := if leased then HasLeases else Between)
    case SetBusy => s.main == HasLeases && t == s.(main := Sending, busy := true)
    case SendBatch =>
      s.main == Sending && s.batches < BATCH_BUFFER && t == s.(main := Between, batches := s.batches + 1)
    case Shutdown => s.main == Between && t == s.(main := Stopping, channelClosed := true)
    // The worker finished, or its grace ran out.
    case WaitOver => s.main == Stopping && t == s.(main := Closing)
    case ClosePrefetch => s.main == Closing && !s.closed && t == s.(closed := true)
    case HoldForClose => s.main == Closing && s.closed && t == s.(held := s.held + 1, main := AwaitingRun(s.run))
    case CloseDone => s.main.AwaitingRun? && RunFinished(s, s.main.run) && t == s.(main := Stopped)
    case Receive => s.worker == Receiving && s.batches > 0 && t == s.(worker := Received, batches := s.batches - 1)
    case HoldStart => s.worker == Received && t == s.(held := s.held + 1, worker := Holding(s.run))
    case HoldDone => s.worker.Holding? && RunFinished(s, s.worker.run) && t == s.(worker := Executing)
    case BatchDone => s.worker == Executing && t == s.(worker := Executed)
    case Release => s.worker == Executed && t == s.(worker := Released, held := if s.held > 0 then s.held - 1 else 0)
    case SetIdle => s.worker == Released && t == s.(worker := Receiving, busy := false)
    case WorkerExit => s.worker == Receiving && s.batches == 0 && s.channelClosed && t == s.(worker := Exited)
    case Update(start) => t == Kick(s, start)
    case FetchReturns(id) =>
      id < |s.fetches| && s.fetches[id] == Downloading && t == s.(fetches := s.fetches[id := Returned])
    case FetchRecords(id, start) => id < |s.fetches| && s.fetches[id] == Returned &&
      t == Kick(s.(run := if s.run == Some(id) then None else s.run, fetches := s.fetches[id := Recorded]), start)
    case FetchFinishes(id) =>
      id < |s.fetches| && s.fetches[id] == Recorded && t == s.(fetches := s.fetches[id := Finished])
  }

  predicate WorkerHolds(w: WorkerAt) {
    w.Holding? || w.Executing? || w.Executed?
  }

  predicate MainHolds(m: MainAt) {
    m.AwaitingRun? || m.Stopped?
  }

  /** `held` counts the holders. */
  function Holders(s: System): nat {
    (if WorkerHolds(s.worker) then 1 else 0) + (if MainHolds(s.main) then 1 else 0)
  }

  /** The busy flag is set from before the send until after the release, and a
      batch is in exactly one place meanwhile. */
  predicate BatchTracked(s: System) {
    var atWorker := !s.worker.Receiving? && !s.worker.Exited?;
    && s.batches <= 1
    && (s.busy <==> s.main == Sending || s.batches == 1 || atWorker)
    && !(s.main == Sending && s.batches == 1) && !(s.main == Sending && atWorker) && !(s.batches == 1 && atWorker)
    && (s.main in {Recovering, Polling, HasLeases} ==> !s.busy)
    && (s.channelClosed ==> s.main.Stopping? || s.main.Closing? || MainHolds(s.main))
    && (s.worker.Exited? ==> s.channelClosed)
  }

  /** Whoever waits for a download waits for the only one there can be. */
  predicate Waits(s: System, on: Option<nat>) {
    s.held > 0 && (s.run.Some? ==> s.run == on)
  }

  ghost predicate DownloadsTracked(s: System) {
    && s.held == Holders(s)
    && (s.closed ==> s.main.Closing? || MainHolds(s.main))
    && (MainHolds(s.main) ==> s.closed)
    && (s.run.Some? ==> s.run.value < |s.fetches|)
    && (forall id :: 0 <= id < |s.fetches| ==>
        (s.fetches[id].Downloading? || s.fetches[id].Returned? <==> s.run == Some(id)))
    && (s.worker.Holding? ==> Waits(s, s.worker.run))
    && (s.worker.Executing? || s.worker.Executed? ==> s.run.None?)
    && (s.main.AwaitingRun? ==> Waits(s, s.main.run))
    && (s.main.Stopped? ==> s.run.None?)
  }

  ghost predicate Inv(s: System) {
    BatchTracked(s) && DownloadsTracked(s)
  }

  lemma StepKeepsBatch(s: System, a: Action, t: System)
    requires BatchTracked(s) && Next(s, a, t)
    ensures BatchTracked(t)
  {
  }

  predicate OfFetch(a: Action) {
    a.Update? || a.FetchReturns? || a.FetchRecords? || a.FetchFinishes?
  }

  predicate OfWorker(a: Action) {
    a.Receive? || a.HoldStart? || a.HoldDone? || a.BatchDone? || a.Release? || a.SetIdle? || a.WorkerExit?
  }

  lemma FetchKeepsDownloads(s: System, a: Action, t: System)
    requires DownloadsTracked(s) && Next(s, a, t) && OfFetch(a)
    ensures DownloadsTracked(t)
  {
    if a.FetchRecords? {
      assert s.run == Some(a.id);
    }
  }

  lemma WorkerKeepsDownloads(s: System, a: Action, t: System)
    requires DownloadsTracked(s) && Next(s, a, t) && OfWorker(a)
    ensures DownloadsTracked(t)
  {
    assert t.fetches == s.fetches;
  }

  lemma MainKeepsDownloads(s: System, a: Action, t: System)
    requires BatchTracked(s) && DownloadsTracked(s) && Next(s, a, t) && !OfFetch(a) && !OfWorker(a)
    ensures DownloadsTracked(t)
  {
    assert t.fetches == s.fetches;
  }

  ghost predicate Run(states: seq<System>, actions: seq<Action>) {
    && |states| == |actions| + 1
    && states[0] == INITIAL
    && forall i :: 0 <= i < |actions| ==> Next(states[i], actions[i], states[i + 1])
  }

  /** What holds in every state of every interleaving. */
  ghost predicate Safe(s: System) {
    // poll and worker never touch the outbox at once
    && !(s.main in {Recovering, Polling} && s.worker.Executing?)
    // the batch send never blocks
    && (s.main == Sending ==> s.batches < BATCH_BUFFER)
    // at most one download has its file open, and none while a task runs
    && (forall i, j :: 0 <= i < |s.fetches| && 0 <= j < |s.fetches| ==>
          s.fetches[i].Downloading? && s.fetches[j].Downloading? ==> i == j)
    && (s.worker.Executing? ==> forall i :: 0 <= i < |s.fetches| ==> !s.fetches[i].Downloading?)
    // once the prefetcher is closed no download is open again
    && (s.main == Stopped ==> forall i :: 0 <= i < |s.fetches| ==> !s.fetches[i].Downloading?)
  }

  lemma StepKeepsInv(s: System, a: Action, t: System)
    requires Inv(s) && Next(s, a, t)
    ensures Inv(t)
  {
    StepKeepsBatch(s, a, t);
    if OfFetch(a) {
      FetchKeepsDownloads(s, a, t);
    } else if OfWorker(a) {
      WorkerKeepsDownloads(s, a, t);
    } else {
      MainKeepsDownloads(s, a, t);
    }
  }

  lemma InvIsSafe(s: System)
    requires Inv(s)
    ensures Safe(s)
  {
  }

  lemma {:induction false} RunsAreSafe(states: seq<System>, actions: seq<Action>, i: nat)
    requires Run(states, actions) && i < |states|
    ensures Inv(states[i]) && Safe(states[i])
  {
    if i > 0 {
      RunsAreSafe(states, actions, i - 1);
      assert Next(states[i - 1], actions[i - 1], states[i]);
      StepKeepsInv(states[i - 1], actions[i - 1], states[i]);
    }
    InvIsSafe(states[i]);
  }
}
