/** The agent's task cycle over the outbox, the linechain manager and the
    server (cmd/lattice-agent/main.go). The server is the environment: it
    accepts a result, refuses it, or accepts it without the answer arriving. */
module Agent {
  import opened Common
  import opened Tasks
  import opened TaskProtocol
  import opened Provenance
  import Outbox = TaskOutbox
  import Chain = Linechain

  class Server {
    var log: History

    constructor ()
      ensures log == History([], [], [])
    {
      log := History([], [], []);
    }

    /** postAgentJSON of one task result. */
    method Post(result: TaskResult) returns (r: Step<bool>)
      modifies this
      ensures log == old(log) || log == old(log).(received := old(log).received + [result])
      ensures r.Done? && r.value ==> log != old(log)
    {
      var fate: Fate := *;
      if fate.Effective() {
        log := log.(received := log.received + [result]);
      }
      return if fate.Dies() then Crashed else Done(fate.Works?);
    }

    /** A task response. The server lists a lease once and never issues one
        whose result it has accepted. */
    method Lease() returns (r: Option<seq<Leased>>)
      ensures r.Some? ==> Leasable(log, r.value)
    {
      r := *;
      if r.Some? && !Leasable(log, r.value) {
        r := None;
      }
    }
  }

  predicate Leasable(h: History, tasks: seq<Leased>) {
    && (forall i, j :: 0 <= i < j < |tasks| ==> tasks[i].task.key != tasks[j].task.key)
    && (forall i, j :: 0 <= i < |tasks| && 0 <= j < |h.received| ==> h.received[j].key != tasks[i].task.key)
  }

  /** Nothing that was started, received or run is forgotten. */
  ghost predicate Extends(h: History, h': History) {
    h.starts <= h'.starts && h.received <= h'.received && h.outcomes <= h'.outcomes
  }

  lemma GrowsOn(h: History, h1: History, h2: History, b: seq<Chain.Settlement>, b1: seq<Chain.Settlement>,
                b2: seq<Chain.Settlement>)
    requires Extends(h, h1) && Extends(h1, h2) && b <= b1 <= b2
    ensures Extends(h, h2) && b <= b2
  {
  }

  /** Results are reported; nothing starts and nothing ends. */
  ghost predicate Reports(h: History, h': History) {
    h'.starts == h.starts && h'.outcomes == h.outcomes
  }

  /** `h'` only received more than `h`, and that is about leases in `ks`. */
  ghost predicate ReceivesOnly(h: History, h': History, ks: set<Key>) {
    && h.received <= h'.received
    && forall i :: |h.received| <= i < |h'.received| ==> h'.received[i].key in ks
  }

  lemma ReceivesMore(a: History, b: History, c: History, ks: set<Key>)
    requires ReceivesOnly(a, b, ks) && ReceivesOnly(b, c, ks)
    ensures ReceivesOnly(a, c, ks)
  {
    assert a.received <= c.received;
  }

  /** Flush has dealt with the first i keys: their results were received, and
      unless linechain entries are kept their entries are gone. */
  ghost predicate FlushedUpTo(before: map<Key, Outbox.Entry>, now: map<Key, Outbox.Entry>, keys: seq<Key>, i: nat,
                              retain: bool, received: seq<TaskResult>)
    requires i <= |keys|
  {
    && (forall k :: k in now ==> k in before && now[k] == before[k])
    && (forall j :: i <= j < |keys| ==> keys[j] in now && now[keys[j]].state.Completed?)
    && (forall j :: 0 <= j < i ==>
        keys[j] in before && before[keys[j]].state.Completed? && before[keys[j]].state.result in received)
    && (forall j :: 0 <= j < i ==> (keys[j] in now <==> retain && before[keys[j]].protocol == LinechainE3))
  }

  lemma FlushedOneMore(before: map<Key, Outbox.Entry>, now: map<Key, Outbox.Entry>, now': map<Key, Outbox.Entry>,
                       keys: seq<Key>, i: nat, retain: bool,
                       received: seq<TaskResult>, received': seq<TaskResult>)
    requires i < |keys| && FlushedUpTo(before, now, keys, i, retain, received) && received <= received'
    requires forall a, b :: 0 <= a < b < |keys| ==> keys[a] != keys[b]
    requires now' in {now, now - {keys[i]}} && now[keys[i]].state.result in received'
    requires keys[i] in now' <==> retain && now[keys[i]].protocol == LinechainE3
    ensures FlushedUpTo(before, now', keys, i + 1, retain, received')
  {
    assert forall x :: x in received ==> x in received';
  }

  /** A script was started, and its outcome recorded if the agent saw it. */
  ghost predicate Launched(h: History, h': History, k: Key, r: Step<TaskResult>) {
    && h'.starts == h.starts + [k] && h'.received == h.received
    && h'.outcomes == h.outcomes + (if r.Done? then [r.value] else []) && (r.Done? ==> r.value.key == k)
  }

  /** validateDurablePair, with the protocol check that follows it. */
  predicate Acceptable(t: Leased, linechainReady: bool) {
    if !t.durable then t.protocol == NoProtocol
    else (t.protocol == LinechainE3 && linechainReady) || t.protocol == Netguard
  }

  class Agent {
    const store: Outbox.Store
    const manager: Chain.Manager
    const server: Server
    const decode: Decoder

    ghost predicate Valid()
      reads this, store, manager, server
    {
      && manager.Valid()
      && Joint(decode, store.disk, manager.disk, server.log)
      && Traced(store.disk, manager.disk, server.log, manager.settlements)
    }

    /** What pollTasks promises before it hands out a lease. */
    ghost predicate Quiet()
      reads this, store, manager
    {
      && store.disk == Outbox.Disk(map[], map[]) && !store.unconfirmed
      && manager.disk.journals == map[]
    }

    constructor (sidecar: string, files: map<string, string>, decode: Decoder)
      ensures Valid() && server.log == History([], [], []) && manager.disk.files == files && manager.settlements == []
      ensures fresh(store) && fresh(manager) && fresh(server)
      ensures this.decode == decode && manager.sidecar == sidecar
    {
      store := new Outbox.Store(Outbox.Disk(map[], map[]));
      manager := new Chain.Manager(sidecar, Chain.Disk(files, map[], map[], map[]), map[]);
      server := new Server();
      this.decode := decode;
      new;
      Chain.NoJournalsInv(manager.disk, sidecar, map[]);
      NothingJoint(decode, files);
      NothingTraced(files);
    }

    /** flushTaskResultsRetain: upload every completed result and drop its
        entry once acknowledged; `retain` keeps linechain entries. A result
        goes out only from an entry that no power loss can change. */
    method Flush(retain: bool) returns (r: Step<bool>)
      requires Valid() && store.Honest()
      requires retain || manager.disk.journals == map[]
      modifies store, server
      ensures Valid() && Reports(old(server.log), server.log)
      ensures ReceivesOnly(old(server.log), server.log, old(store.disk).visible.Keys)
      ensures var was := old(store.disk).visible;
              r.Done? && r.value && !retain && (forall k :: k in was ==> was[k].state.Completed?) ==>
                store.disk == Outbox.Disk(map[], map[]) && !store.unconfirmed
      ensures var was := old(store.disk).visible;
              r.Done? && r.value ==>
                forall k :: k in was && was[k].state.Completed? ==>
                  && was[k].state.result in server.log.received
                  && (k in store.disk.visible <==> retain && was[k].protocol == LinechainE3)
    {
      var pending := store.Pending();
      if pending.None? {
        return Done(false);
      }
      var keys := pending.value;
      ghost var before := store.disk.visible;
      assert forall j :: 0 <= j < |keys| ==> keys[j] in keys;
      for i := 0 to |keys|
        invariant Valid() && store.disk.stale == map[] && !store.unconfirmed
        invariant Reports(old(server.log), server.log)
        invariant ReceivesOnly(old(server.log), server.log, before.Keys)
        invariant FlushedUpTo(before, store.disk.visible, keys, i, retain, server.log.received)
      {
        ghost var log, visible := server.log, store.disk.visible;
        var flushed := FlushOne(keys[i], retain);
        ReceivesMore(old(server.log), log, server.log, before.Keys);
        var ok :- flushed;
        if !ok {
          return Done(false);
        }
        FlushedOneMore(before, visible, store.disk.visible, keys, i, retain, log.received, server.log.received);
      }
      assert forall k :: k in keys ==> k !in store.disk.visible || retain;
      return Done(true);
    }

    /** One result of Flush: upload it, then drop its entry. */
    method FlushOne(k: Key, retain: bool) returns (r: Step<bool>)
      requires Valid() && store.disk.stale == map[] && !store.unconfirmed
      requires k in store.disk.visible && store.disk.visible[k].state.Completed?
      requires retain || manager.disk.journals == map[]
      modifies store, server
      ensures Valid() && Reports(old(server.log), server.log)
      ensures ReceivesOnly(old(server.log), server.log, {k})
      ensures ReceivesOnly(old(server.log), server.log, old(store.disk).visible.Keys)
      ensures r.Done? && r.value ==>
        && store.disk.stale == map[] && !store.unconfirmed
        && store.disk.visible in {old(store.disk).visible, old(store.disk).visible - {k}}
        && (k in store.disk.visible <==> retain && old(store.disk).visible[k].protocol == LinechainE3)
        && old(store.disk).visible[k].state.result in server.log.received
    {
      var entry := store.disk.visible[k];
      JointMeans(decode, store.disk, manager.disk, server.log);
      assert Some(entry) in Outbox.Survivors(store.disk, k);
      var posted :- Upload(entry.state.result);
      if !posted {
        return Done(false);
      }
      if retain && entry.protocol == LinechainE3 {
        return Done(true);
      }
      JointMeans(decode, store.disk, manager.disk, server.log);
      assert k in manager.disk.journals ==> entry.protocol == LinechainE3;
      r := Drop(k);
    }

    /** One upload of Flush. */
    method Upload(result: TaskResult) returns (r: Step<bool>)
      requires Valid() && Outbox.Durable(store.disk, result.key) && Outbox.Holds(store.disk, result)
      modifies server
      ensures Valid() && Reports(old(server.log), server.log)
      ensures server.log.received == old(server.log.received) ||
        server.log.received == old(server.log.received) + [result]
      ensures r.Done? && r.value ==> Acked(server.log, result.key) && result in server.log.received
    {
      ReceiveKeeps(decode, store.disk, manager.disk, server.log, result);
      HeldKnown(store.disk, manager.disk, server.log, manager.settlements, result);
      ReceiveTraced(store.disk, manager.disk, server.log, manager.settlements, result);
      r := server.Post(result);
    }

    /** One removal of Flush. */
    method Drop(k: Key) returns (r: Step<bool>)
      requires Valid() && Acked(server.log, k) && k !in manager.disk.journals
      requires store.disk.stale == map[] && !store.unconfirmed
      modifies store
      ensures Valid()
      ensures r.Done? && r.value ==>
        store.disk == Outbox.Disk(old(store.disk).visible - {k}, map[]) && !store.unconfirmed
    {
      ghost var before := store.disk;
      r := store.Remove(k);
      RemoveKeeps(decode, before, store.disk, manager.disk, server.log, k);
      EntryTraced(before, store.disk, manager.disk, server.log, manager.settlements, k, None);
    }

    /** captureLinechainAuthority: every journal must belong to an entry that
        matches it, and every awaiting linechain entry must have a journal. */
    method CaptureAuthority() returns (r: Option<map<Key, Chain.Journal>>, ghost read: bool)
      ensures r.Some? ==> read && r.value == manager.disk.journals
      ensures read ==> (r.Some? <==> Orphans() == {} && Unjournaled() == {})
    {
      var entries := store.ReadAll();
      var journals := manager.Snapshot();
      read := entries.Some? && journals.Some?;
      if entries.None? || journals.None? {
        return None, read;
      }
      var matched: set<Key> := {};
      for i := 0 to |entries.value|
        invariant matched == set j | 0 <= j < i && entries.value[j] in manager.disk.journals :: entries.value[j]
        invariant forall j :: 0 <= j < i && entries.value[j] in manager.disk.journals ==>
          Matches(decode, store.disk.visible[entries.value[j]], manager.disk.journals[entries.value[j]])
        invariant forall j :: 0 <= j < i ==> entries.value[j] !in Unjournaled()
      {
        var k := entries.value[i];
        var entry := store.disk.visible[k];
        if k in journals.value {
          if !Matches(decode, entry, journals.value[k]) {
            assert k in Orphans();
            return None, read;
          }
          matched := matched + {k};
        } else if entry.state == Outbox.Awaiting && entry.protocol == LinechainE3 {
          assert k in Unjournaled();
          return None, read;
        }
      }
      if !(journals.value.Keys <= matched) {
        ghost var k :| k in journals.value.Keys && k !in matched;
        assert k in Orphans();
        return None, read;
      }
      return journals, read;
    }

    /** Journals without an entry that matches them. */
    ghost function Orphans(): set<Key>
      reads this, store, manager
    {
      set k | k in manager.disk.journals &&
              !(k in store.disk.visible && Matches(decode, store.disk.visible[k], manager.disk.journals[k]))
    }

    /** Awaiting linechain entries without a journal. */
    ghost function Unjournaled(): set<Key>
      reads this, store, manager
    {
      set k | k in store.disk.visible && k !in manager.disk.journals &&
              store.disk.visible[k].state == Outbox.Awaiting && store.disk.visible[k].protocol == LinechainE3
    }

    /** Recovery is never refused for a journal without its entry. */
    lemma NoOrphans()
      requires Valid()
      ensures Orphans() == {}
    {
      JointMeans(decode, store.disk, manager.disk, server.log);
      forall k | k in manager.disk.journals ensures k !in Orphans() {
        var v := Outbox.Current(store.disk, k);
        assert v in Outbox.Survivors(store.disk, k);
        assert v.Some? && Matches(decode, v.value, manager.disk.journals[k]);
      }
    }

    /** The completion callback of requireLinechainRecovered. */
    method CompleteRecovered(result: TaskResult) returns (r: Step<bool>)
      requires Valid() && result.key in manager.disk.journals
      requires manager.disk.journals[result.key].result == Some(result)
      modifies store
      ensures Valid()
      ensures r.Done? && r.value ==> Outbox.Holds(store.disk, result)
      // The cleanup that follows is safe against a power loss exactly when the
      // entry was still awaiting or its file had nothing unsynced.
      ensures r.Done? && r.value ==>
        result.key in old(store.disk.visible) &&
        (Outbox.Durable(store.disk, result.key) <==>
         old(store.disk.visible)[result.key].state == Outbox.Awaiting || Outbox.Durable(old(store.disk), result.key))
    {
      JournaledKnown(store.disk, manager.disk, server.log, manager.settlements, result.key);
      var w :- CompleteKeeping(result);
      if w.ok || !w.committed {
        return Done(w.ok);
      }
      r := ConfirmKeeping();
    }

    /** ConfirmDurability, seen from the whole protocol. */
    method ConfirmKeeping() returns (r: Step<bool>)
      requires Valid()
      modifies store
      ensures Valid() && store.disk.visible == old(store.disk).visible
      ensures r.Done? && r.value ==> store.disk.stale == map[] && !store.unconfirmed
    {
      ghost var before := store.disk;
      r := store.ConfirmDurability();
      NarrowingKeeps(decode, before, store.disk, manager.disk, server.log);
      NarrowingTraced(before, store.disk, manager.disk, server.log, manager.settlements);
    }

    /** Complete, seen from the whole protocol. */
    method CompleteKeeping(result: TaskResult) returns (r: Step<Outbox.Written>)
      requires Valid() && Known(server.log.outcomes, manager.settlements, result)
      requires result.key in manager.disk.journals ==> manager.disk.journals[result.key].result == Some(result)
      modifies store
      ensures Valid()
      ensures r.Done? && r.value.committed ==>
        && Outbox.Holds(store.disk, result)
        && store.disk.visible.Keys == old(store.disk).visible.Keys
        && old(store.disk.visible)[result.key].state == Outbox.Awaiting
        && (r.value.ok ==> store.disk.stale == map[] && !store.unconfirmed)
        && (!r.value.ok ==> store.unconfirmed)
      ensures r.Done? && !r.value.committed ==>
        store.disk == old(store.disk) && (r.value.ok <==> Outbox.Holds(store.disk, result))
    {
      ghost var before := store.disk;
      r := store.Complete(result);
      if store.disk != before {
        CompletionKeeps(before, result);
      }
    }

    lemma CompletionKeeps(before: Outbox.Disk, result: TaskResult)
      requires Joint(decode, before, manager.disk, server.log) && manager.Valid()
      requires Traced(before, manager.disk, server.log, manager.settlements)
      requires result.key in before.visible && Known(server.log.outcomes, manager.settlements, result)
      requires exists e' :: Outbox.CompletionOf(before.visible[result.key], e', result) &&
                            Outbox.AtMostAdds(before, store.disk, result.key, Some(e'))
      requires result.key in manager.disk.journals ==> manager.disk.journals[result.key].result == Some(result)
      ensures Valid()
    {
      var e := before.visible[result.key];
      var e' :| Outbox.CompletionOf(e, e', result) && Outbox.AtMostAdds(before, store.disk, result.key, Some(e'));
      CompleteKeeps(decode, before, store.disk, manager.disk, server.log, e, e', result);
      EntryTraced(before, store.disk, manager.disk, server.log, manager.settlements, result.key, Some(e'));
    }

    /** The files that journaled transactions are about. */
    function Pairs(journals: map<Key, Chain.Journal>): set<string> {
      {manager.sidecar} + set k | k in journals :: journals[k].fragmentPath
    }

    /** requireLinechainRecovered: resolve every journal, complete its lease
        with exactly the journaled result, and only then clean it up. On
        success each transaction found is settled: the pair on disk is the
        desired one if its result says exit 0 and the old one otherwise, and a
        result that was already journaled is the one that was completed. */
    method RequireLinechainRecovered() returns (r: Step<bool>)
      requires Valid()
      modifies store, manager
      ensures Valid() && old(manager.settlements) <= manager.settlements
      ensures Chain.Changed(old(manager.disk).files, manager.disk.files) <= Pairs(old(manager.disk).journals)
      ensures r.Done? && r.value ==> manager.disk.journals == map[]
      ensures r.Done? && r.value ==> forall k :: k in old(manager.disk).journals ==>
        RecoveredAs(store.disk, manager.disk.files, manager.sidecar, old(manager.txns), k,
                    old(manager.disk).journals[k].result)
    {
      var authority, _ := CaptureAuthority();
      if authority.None? {
        return Done(false);
      }
      var todo := manager.disk.journals.Keys;
      Chain.ChangedNothing(manager.disk.files);
      while todo != {}
        invariant Chain.Changed(old(manager.disk).files, manager.disk.files) <= Pairs(old(manager.disk).journals)
        invariant Valid() && manager.txns == old(manager.txns) && old(manager.settlements) <= manager.settlements
        invariant todo == manager.disk.journals.Keys
        invariant todo != {} ==> manager.disk == old(manager.disk)
        invariant todo == {} ==> forall k :: k in old(manager.disk).journals ==>
          RecoveredAs(store.disk, manager.disk.files, manager.sidecar, old(manager.txns), k,
                      old(manager.disk).journals[k].result)
        decreases todo
      {
        var k :| k in todo;
        Chain.Intact(manager.disk, manager.sidecar, manager.txns, k);
        var cleaned :- RecoverJournal(k, authority.value[k]);
        if !cleaned {
          return Done(false);
        }
        todo := todo - {k};
      }
      return Done(true);
    }

    /** One journal of requireLinechainRecovered. */
    method RecoverJournal(k: Key, authority: Chain.Journal) returns (r: Step<bool>)
      requires Valid() && k in manager.disk.journals
      modifies store, manager`disk, manager`verified, manager`checks, manager`settlements
      ensures Valid() && old(manager.settlements) <= manager.settlements
      ensures Chain.Changed(old(manager.disk).files, manager.disk.files) <=
        {old(manager.disk).journals[k].fragmentPath, manager.sidecar}
      ensures r.Done? && r.value ==>
        && manager.disk.journals == map[]
        && RecoveredAs(store.disk, manager.disk.files, manager.sidecar, manager.txns, k,
                       old(manager.disk).journals[k].result)
    {
      var result :- RecoverKeeping(k, authority);
      if result.None? {
        return Done(false);
      }
      var completed :- CompleteRecovered(result.value);
      if !completed {
        return Done(false);
      }
      r := CleanupKeeping(k);
    }

    /** recoverOne, seen from the whole protocol. */
    method RecoverKeeping(k: Key, authority: Chain.Journal) returns (r: Step<Option<TaskResult>>)
      requires Valid() && k in manager.disk.journals
      modifies manager`disk, manager`verified, manager`checks, manager`settlements
      ensures Valid() && manager.disk.journals.Keys == {k} && old(manager.settlements) <= manager.settlements
      ensures Chain.Changed(old(manager.disk).files, manager.disk.files) <=
        {old(manager.disk).journals[k].fragmentPath, manager.sidecar}
      ensures r.Done? && r.value.Some? ==>
        && manager.disk.journals[k].result == r.value && r.value.value.key == k
        && k in manager.txns && Chain.Settled(manager.disk.files, manager.sidecar, manager.txns[k], r.value.value)
        && (old(manager.disk).journals[k].result.Some? ==> r.value == old(manager.disk).journals[k].result)
    {
      ghost var before := manager.disk;
      Chain.Intact(before, manager.sidecar, manager.txns, k);
      r := manager.RecoverOne(k, None, Some(authority));
      Chain.Intact(manager.disk, manager.sidecar, manager.txns, k);
      SettlingResolves(before, manager.disk, manager.sidecar, k, before.journals[k].fragmentPath);
      ResolvingKeeps(decode, store.disk, before, manager.disk, server.log);
      BookedTraced(before, old(manager.checks), old(manager.settlements), k, None);
    }

    /** What the manager booked can be traced. */
    lemma BookedTraced(c: Chain.Disk, said: seq<bool>, booked: seq<Chain.Settlement>, k: Key, ran: Option<TaskResult>)
      requires Traced(store.disk, c, server.log, booked) && manager.disk.journals.Keys <= {k}
      requires manager.Booked(c, manager.disk, said, booked, k, ran)
      requires ran.Some? ==> ran.value in server.log.outcomes
      ensures Traced(store.disk, manager.disk, server.log, manager.settlements) && booked <= manager.settlements
    {
      if manager.settlements != booked {
        assert manager.settlements[|booked|].result == manager.disk.journals[k].result.value;
      }
      ChainTraced(store.disk, c, manager.disk, server.log, booked, manager.settlements);
    }

    /** Cleanup, seen from the whole protocol. */
    method CleanupKeeping(k: Key) returns (r: Step<bool>)
      requires Valid() && (k in manager.disk.journals ==> manager.disk.journals[k].result.Some?)
      modifies manager`disk
      ensures Valid() && manager.disk.files == old(manager.disk).files
      ensures manager.disk.journals.Keys <= old(manager.disk).journals.Keys
      ensures r.Done? && r.value ==> manager.disk.journals == old(manager.disk).journals - {k}
    {
      ghost var before := manager.disk;
      r := manager.Cleanup(k);
      CleaningResolves(before, manager.disk, k);
      ResolvingKeeps(decode, store.disk, before, manager.disk, server.log);
      ChainTraced(store.disk, before, manager.disk, server.log, manager.settlements, manager.settlements);
    }

    /** RecoverInterrupted, seen from the whole protocol. */
    method RecoverKeepingOutbox() returns (r: Step<bool>)
      requires Valid()
      modifies store
      ensures Valid()
      ensures r.Done? && r.value ==>
        && store.disk.stale == map[] && !store.unconfirmed
        && forall k :: k in store.disk.visible ==> store.disk.visible[k].state.Completed?
    {
      ghost var before := store.disk;
      JointMeans(decode, store.disk, manager.disk, server.log);
      r := store.RecoverInterrupted();
      RecoveryKeeps(decode, before, store.disk, manager.disk, server.log);
      RecoveryTraced(before, store.disk, manager.disk, server.log, manager.settlements);
    }

    /** pollTasks. When it returns leases the outbox is empty, durably, and no
        linechain journal is left. */
    method PollTasks() returns (r: Step<Option<seq<Leased>>>)
      requires Valid()
      modifies store, manager, server
      ensures Valid() && Reports(old(server.log), server.log) && Extends(old(server.log), server.log)
      ensures old(manager.settlements) <= manager.settlements
      ensures r.Done? && r.value.Some? ==> Quiet() && Leasable(server.log, r.value.value)
    {
      var recovered :- RequireLinechainRecovered();
      if !recovered {
        return Done(None);
      }
      var ok :- RecoverKeepingOutbox();
      if !ok {
        return Done(None);
      }
      ok :- Flush(false);
      if !ok {
        return Done(None);
      }
      var tasks := server.Lease();
      return Done(tasks);
    }

    /** runTask for a journaled lease: the script starts, and ends with any exit
        code, error text and output, which is recorded. Its lease entry survives
        any crash, it never ran before, and no linechain transaction is
        unresolved. */
    method Launch(task: Task) returns (r: Step<TaskResult>)
      requires Valid() && None !in Outbox.Survivors(store.disk, task.key) && task.key !in server.log.starts
      requires manager.disk.journals == map[] && !Acked(server.log, task.key)
      modifies server
      ensures Valid() && Launched(old(server.log), server.log, task.key, r)
    {
      StartKeeps(decode, store.disk, manager.disk, server.log, task.key);
      StartTraced(store.disk, manager.disk, server.log, manager.settlements, task.key);
      server.log := server.log.(starts := server.log.starts + [task.key]);
      r := EndRun(task.key);
    }

    /** The runner returns. */
    method EndRun(k: Key) returns (r: Step<TaskResult>)
      requires Valid()
      modifies server
      ensures Valid() && (r.Done? ==> r.value.key == k)
      ensures server.log == old(server.log).(outcomes := old(server.log).outcomes + if r.Done? then [r.value] else [])
    {
      r := *;
      if r.Done? {
        r := Done(r.value.(key := k));
        EndKeeps(decode, store.disk, manager.disk, server.log, r.value);
        OutcomeTraced(store.disk, manager.disk, server.log, manager.settlements, r.value);
        server.log := server.log.(outcomes := server.log.outcomes + [r.value]);
      }
    }

    /** runTask for a lease without the durable protocol, which has no journal to
        know by whether it ran. */
    method LaunchUnjournaled(leased: Leased) returns (r: Step<TaskResult>)
      requires Valid() && !leased.durable
      modifies server
      ensures Valid() && (r.Done? ==> r.value.key == leased.task.key)
      ensures server.log == old(server.log).(outcomes := old(server.log).outcomes + if r.Done? then [r.value] else [])
    {
      r := EndRun(leased.task.key);
    }

    /** The outbox holds exactly this lease, awaiting its result, durably. */
    ghost predicate Running(task: Task, protocol: Protocol)
      reads this, store
    {
      && store.disk.stale == map[] && !store.unconfirmed
      && store.disk.visible.Keys == {task.key}
      && var e := store.disk.visible[task.key]; e.task == task && e.protocol == protocol && e.state == Outbox.Awaiting
    }

    /** Since the files were `files`, nothing changed but what a journaled
        transaction on exactly them accounts for. */
    ghost predicate Told(files: map<string, string>, d: Chain.Disk, txns: map<Key, Chain.Txn>, k: Key,
                         doc: Chain.Document) {
      if k in d.journals then k in txns && manager.Asked(txns[k], files, doc) else d.files == files
    }

    /** The result is true of the files: a failure that left them as they were,
        or the outcome of the transaction that the document asks for on them. */
    ghost predicate Truthful(files: map<string, string>, files': map<string, string>, txns: map<Key, Chain.Txn>,
                             script: string, result: TaskResult) {
      || (files' == files && (result.exitCode != 0 || result.error != NoProblem))
      || (result.key in txns && decode(script).Some? && manager.Asked(txns[result.key], files, decode(script).value)
          && Chain.Settled(files', manager.sidecar, txns[result.key], result))
    }

    /** The server has a result of this lease that is true of the files and answers
        the run, which ended as `ran`. */
    ghost predicate TruthTold(received: seq<TaskResult>, files: map<string, string>, files': map<string, string>,
                              txns: map<Key, Chain.Txn>, t: Task, ran: TaskResult, booked: seq<Chain.Settlement>,
                              from: nat) {
      exists i :: 0 <= i < |received| && received[i].key == t.key &&
        Truthful(files, files', txns, t.script, received[i]) && AnswersRun(ran, received[i], booked, from)
    }

    /** If the journal of lease k has a result already, a retry of the helper
        settled it since. */
    ghost predicate SettledInRun(c: Chain.Disk, booked: seq<Chain.Settlement>, from: nat, k: Key) {
      k in c.journals && c.journals[k].result.Some? ==>
        exists i :: from <= i < |booked| && booked[i].ran.None? && booked[i].result == c.journals[k].result.value
                    && Chain.Justified(booked[i])
    }

    /** One call of the apply helper, seen from the whole protocol. */
    method ApplyKeeping(task: Task, doc: Chain.Document) returns (r: Step<bool>)
      requires Valid() && Running(task, LinechainE3) && task.key in server.log.starts
      requires decode(task.script) == Some(doc)
      requires doc.artifact.Sha256? && doc.fragmentPath != manager.sidecar
      requires manager.Attempted(manager.disk, task.key, Sha256(task.script), doc)
      modifies manager
      ensures Valid() && manager.Attempted(manager.disk, task.key, Sha256(task.script), doc)
      ensures forall files :: Told(files, old(manager.disk), old(manager.txns), task.key, doc) ==>
        Told(files, manager.disk, manager.txns, task.key, doc)
      ensures Chain.Changed(old(manager.disk).files, manager.disk.files) <= {doc.fragmentPath, manager.sidecar}
      ensures old(manager.settlements) <= manager.settlements
      ensures SettledInRun(manager.disk, manager.settlements, |old(manager.settlements)|, task.key) ||
        (task.key in old(manager.disk).journals &&
         manager.disk.journals[task.key].result == old(manager.disk).journals[task.key].result)
    {
      ghost var before := manager.disk;
      r := manager.Apply(task.key, Sha256(task.script), doc);
      Chain.ChangedNothing(manager.disk.files);
      NewJournalKeeps(decode, store.disk, before, manager.disk, server.log, task.key, store.disk.visible[task.key]);
      BookedTraced(before, old(manager.checks), old(manager.settlements), task.key, None);
    }

    /** What a linechain script is allowed to touch. */
    function Pair(script: string): set<string> {
      if decode(script).Some? then {decode(script).value.fragmentPath, manager.sidecar} else {}
    }

    /** RunLinechain: while the script runs it feeds its document to the apply
        helper, any number of times; a helper may be killed without the agent. */
    method RunLinechain(task: Task) returns (r: Step<TaskResult>)
      requires Valid() && Running(task, LinechainE3) && task.key !in server.log.starts && !Acked(server.log, task.key)
      requires manager.disk.journals == map[]
      requires task.key !in manager.disk.fragmentBackups && task.key !in manager.disk.sidecarBackups
      modifies manager, server
      ensures Valid() && manager.disk.journals.Keys <= {task.key} && old(manager.settlements) <= manager.settlements
      ensures Launched(old(server.log), server.log, task.key, r)
      ensures SettledInRun(manager.disk, manager.settlements, |old(manager.settlements)|, task.key)
      ensures if decode(task.script).Some?
              then Told(old(manager.disk).files, manager.disk, manager.txns, task.key, decode(task.script).value)
              else manager.disk == old(manager.disk)
      ensures Chain.Changed(old(manager.disk).files, manager.disk.files) <= Pair(task.script)
    {
      r := Launch(task);
      var doc := decode(task.script);
      Chain.ChangedNothing(manager.disk.files);
      if doc.Some? && doc.value.artifact.Sha256? && doc.value.fragmentPath != manager.sidecar {
        CallHelpers(task, doc.value);
      }
    }

    /** The script calls the helper any number of times. */
    method CallHelpers(task: Task, doc: Chain.Document)
      requires Valid() && Running(task, LinechainE3) && task.key in server.log.starts
      requires decode(task.script) == Some(doc) && manager.disk.journals == map[]
      requires doc.artifact.Sha256? && doc.fragmentPath != manager.sidecar
      requires manager.Attempted(manager.disk, task.key, Sha256(task.script), doc)
      modifies manager
      ensures Valid() && manager.disk.journals.Keys <= {task.key} && old(manager.settlements) <= manager.settlements
      ensures SettledInRun(manager.disk, manager.settlements, |old(manager.settlements)|, task.key)
      ensures Told(old(manager.disk).files, manager.disk, manager.txns, task.key, doc)
      ensures Chain.Changed(old(manager.disk).files, manager.disk.files) <= {doc.fragmentPath, manager.sidecar}
    {
      var calls: nat :| true;
      ghost var from, paths := |manager.settlements|, {doc.fragmentPath, manager.sidecar};
      Chain.ChangedNothing(manager.disk.files);
      for i := 0 to calls
        invariant Valid() && manager.Attempted(manager.disk, task.key, Sha256(task.script), doc)
        invariant old(manager.settlements) <= manager.settlements
        invariant SettledInRun(manager.disk, manager.settlements, from, task.key)
        invariant Told(old(manager.disk).files, manager.disk, manager.txns, task.key, doc)
        invariant Chain.Changed(old(manager.disk).files, manager.disk.files) <= paths
      {
        ghost var files := manager.disk.files;
        CallHelper(task, doc, from);
        Chain.ChangedTwice(old(manager.disk).files, files, manager.disk.files, paths);
      }
    }

    /** One call of the helper while the script runs, whatever becomes of it. */
    method CallHelper(task: Task, doc: Chain.Document, ghost from: nat)
      requires Valid() && Running(task, LinechainE3) && task.key in server.log.starts
      requires decode(task.script) == Some(doc)
      requires doc.artifact.Sha256? && doc.fragmentPath != manager.sidecar
      requires manager.Attempted(manager.disk, task.key, Sha256(task.script), doc)
      requires from <= |manager.settlements| && SettledInRun(manager.disk, manager.settlements, from, task.key)
      modifies manager
      ensures Valid() && manager.Attempted(manager.disk, task.key, Sha256(task.script), doc)
      ensures forall files :: Told(files, old(manager.disk), old(manager.txns), task.key, doc) ==>
        Told(files, manager.disk, manager.txns, task.key, doc)
      ensures Chain.Changed(old(manager.disk).files, manager.disk.files) <= {doc.fragmentPath, manager.sidecar}
      ensures old(manager.settlements) <= manager.settlements
      ensures SettledInRun(manager.disk, manager.settlements, from, task.key)
    {
      ghost var before, booked := manager.disk, manager.settlements;
      var _ := ApplyKeeping(task, doc);
      StillSettled(before, booked, from, task.key);
    }

    lemma StillSettled(c: Chain.Disk, booked: seq<Chain.Settlement>, from: nat, k: Key)
      requires SettledInRun(c, booked, from, k) && from <= |booked| && booked <= manager.settlements
      requires SettledInRun(manager.disk, manager.settlements, |booked|, k) ||
        (k in c.journals && k in manager.disk.journals && manager.disk.journals[k].result == c.journals[k].result)
      ensures SettledInRun(manager.disk, manager.settlements, from, k)
    {
    }

    /** executeTask. A durable task is journaled before it runs, its result
        before upload; an exact redelivery is a no-op. */
    method ExecuteTask(leased: Leased, linechainReady: bool) returns (r: Step<bool>)
      requires Valid() && Quiet() && !Acked(server.log, leased.task.key)
      modifies store, manager, server
      ensures Valid() && ReceivesOnly(old(server.log), server.log, {leased.task.key})
      ensures server.log.starts == old(server.log).starts ||
        server.log.starts == old(server.log).starts + [leased.task.key]
      ensures old(server.log).outcomes <= server.log.outcomes && |server.log.outcomes| <= |old(server.log).outcomes| + 1
      ensures old(manager.settlements) <= manager.settlements
      // Refused: a protocol without a durable result, one that is not known, and
      // linechain while it is not ready.
      ensures (if leased.durable then leased.protocol != Netguard && (leased.protocol != LinechainE3 || !linechainReady)
               else leased.protocol != NoProtocol) ==>
        && r == Done(false) && server.log == old(server.log)
        && store.disk == old(store.disk) && manager.disk == old(manager.disk)
      ensures r.Done? && r.value ==> Quiet() && ReportsRun(leased, old(server.log), server.log)
      ensures Chain.Changed(old(manager.disk).files, manager.disk.files) <= Pair(leased.task.script)
      ensures r.Done? && r.value && leased.durable && leased.protocol == LinechainE3 ==>
        TruthTold(server.log.received, old(manager.disk).files, manager.disk.files, manager.txns, leased.task,
                  server.log.outcomes[|old(server.log).outcomes|], manager.settlements, |old(manager.settlements)|)
    {
      var task := leased.task;
      Chain.ChangedNothing(manager.disk.files);
      if !Acceptable(leased, linechainReady) {
        return Done(false);
      }
      if leased.durable {
        r := ExecuteDurable(task, leased.protocol);
      } else {
        r := ExecuteUnjournaled(leased);
      }
    }

    /** A task without the durable protocol: run it and report it once. */
    method ExecuteUnjournaled(leased: Leased) returns (r: Step<bool>)
      requires Valid() && Quiet() && !Acked(server.log, leased.task.key) && !leased.durable
      modifies server
      ensures Valid() && ReceivesOnly(old(server.log), server.log, {leased.task.key})
      ensures server.log.starts == old(server.log).starts
      ensures old(server.log).outcomes <= server.log.outcomes && |server.log.outcomes| <= |old(server.log).outcomes| + 1
      ensures r.Done? && r.value ==> ReportsRun(leased, old(server.log), server.log)
    {
      var ran :- LaunchUnjournaled(leased);
      var now := Clock();
      var result := if ran.finishedAt == 0 then ran.(finishedAt := now) else ran;
      assert Chain.Stamped(server.log.outcomes[|old(server.log).outcomes|], result);
      assert Ran(server.log.outcomes, result);
      r := PostUnjournaled(result);
    }

    /** A journaled task. */
    method ExecuteDurable(task: Task, protocol: Protocol) returns (r: Step<bool>)
      requires Valid() && Quiet() && !Acked(server.log, task.key)
      modifies store, manager, server
      ensures Valid() && ReceivesOnly(old(server.log), server.log, {task.key})
      ensures server.log.starts == old(server.log).starts || server.log.starts == old(server.log).starts + [task.key]
      ensures old(server.log).outcomes <= server.log.outcomes && |server.log.outcomes| <= |old(server.log).outcomes| + 1
      ensures old(manager.settlements) <= manager.settlements
      ensures r.Done? && r.value ==> Quiet() && ReportsRun(Leased(task, true, protocol), old(server.log), server.log)
      ensures Chain.Changed(old(manager.disk).files, manager.disk.files) <= Pair(task.script)
      ensures r.Done? && r.value && protocol == LinechainE3 ==>
        TruthTold(server.log.received, old(manager.disk).files, manager.disk.files, manager.txns, task,
                  server.log.outcomes[|old(server.log).outcomes|], manager.settlements, |old(manager.settlements)|)
    {
      Chain.ChangedNothing(manager.disk.files);
      UnjournaledNeverStarted(decode, store.disk, manager.disk, server.log, task.key);
      var w :- BeginKeeping(task, protocol);
      if !w.ok {
        if !w.committed {
          // No host code ran, so one best-effort report is safe.
          var now := Clock();
          var _ :- PostUnjournaled(TaskResult(task.key, -1, NotJournaled, now, ""));
        }
        return Done(false);
      }
      if !w.committed {
        return Done(true);
      }
      if protocol == LinechainE3 {
        r := RunAndResolve(task);
      } else {
        var ran :- Launch(task);
        RanNow(ran);
        r := Report(ran, false);
      }
    }

    /** The newest outcome is the outcome of a run. */
    lemma RanNow(ran: TaskResult)
      requires server.log.outcomes != [] && server.log.outcomes[|server.log.outcomes| - 1] == ran
      ensures Ran(server.log.outcomes, ran) && ran in server.log.outcomes
    {
      assert Chain.Stamped(server.log.outcomes[|server.log.outcomes| - 1], ran);
    }

    /** The linechain middle of executeTask: run, then resolve the transaction
        into one terminal result. */
    method RunAndResolve(task: Task) returns (r: Step<bool>)
      requires Valid() && Running(task, LinechainE3) && task.key !in server.log.starts && !Acked(server.log, task.key)
      requires manager.disk.journals == map[]
      requires task.key !in manager.disk.fragmentBackups && task.key !in manager.disk.sidecarBackups
      modifies store, manager, server
      ensures Valid() && server.log.starts == old(server.log).starts + [task.key]
      ensures old(server.log).outcomes <= server.log.outcomes && |server.log.outcomes| <= |old(server.log).outcomes| + 1
      ensures old(manager.settlements) <= manager.settlements
      ensures Chain.Changed(old(manager.disk).files, manager.disk.files) <= Pair(task.script)
      ensures ReceivesOnly(old(server.log), server.log, {task.key})
      ensures r.Done? && r.value ==>
        && Quiet() && ReportsRun(Leased(task, true, LinechainE3), old(server.log), server.log)
        && TruthTold(server.log.received, old(manager.disk).files, manager.disk.files, manager.txns, task,
                     server.log.outcomes[|old(server.log).outcomes|], manager.settlements, |old(manager.settlements)|)
    {
      ghost var files, from := manager.disk.files, |manager.settlements|;
      var result, ran := RunAndSettle(task);
      var settled :- result;
      if settled.None? {
        return Done(false);
      }
      r := Report(settled.value, true);
      if r.Done? && r.value {
        ToldBy(settled.value, files, task, ran, from);
      }
    }

    /** Run the script, then resolve what it left. */
    method RunAndSettle(task: Task) returns (r: Step<Option<TaskResult>>, ghost ran: TaskResult)
      requires Valid() && Running(task, LinechainE3) && task.key !in server.log.starts && !Acked(server.log, task.key)
      requires manager.disk.journals == map[]
      requires task.key !in manager.disk.fragmentBackups && task.key !in manager.disk.sidecarBackups
      modifies manager, server
      ensures Valid() && manager.disk.journals.Keys <= {task.key} && old(manager.settlements) <= manager.settlements
      ensures Launched(old(server.log), server.log, task.key, Done(ran)) ||
        (Launched(old(server.log), server.log, task.key, Crashed) && r.Crashed?)
      ensures Chain.Changed(old(manager.disk).files, manager.disk.files) <= Pair(task.script)
      ensures r.Done? && r.value.Some? ==>
        && r.value.value.key == task.key
        && (task.key in manager.disk.journals ==> manager.disk.journals[task.key].result == r.value)
        && Known(server.log.outcomes, manager.settlements, r.value.value)
        && Truthful(old(manager.disk).files, manager.disk.files, manager.txns, task.script, r.value.value)
        && AnswersRun(ran, r.value.value, manager.settlements, |old(manager.settlements)|)
    {
      ghost var files, from := manager.disk.files, |manager.settlements|;
      var ended := RunLinechain(task);
      if ended.Crashed? {
        ran := *;
        return Crashed, ran;
      }
      ran := ended.value;
      RanNow(ran);
      r := ResolveKeeping(task, ended.value, files, from);
    }

    lemma ToldBy(result: TaskResult, files: map<string, string>, t: Task, ran: TaskResult, from: nat)
      requires result in server.log.received && result.key == t.key
      requires Truthful(files, manager.disk.files, manager.txns, t.script, result)
      requires AnswersRun(ran, result, manager.settlements, from)
      ensures TruthTold(server.log.received, files, manager.disk.files, manager.txns, t, ran, manager.settlements, from)
      ensures Acked(server.log, t.key)
    {
      var i :| 0 <= i < |server.log.received| && server.log.received[i] == result;
    }

    /** ResolveAfterRun, seen from the whole protocol. The result is true of the
        files and answers the run; in particular a failed run is a failure unless
        its journal held a success already. */
    method ResolveKeeping(task: Task, ran: TaskResult, ghost files: map<string, string>, ghost from: nat)
      returns (r: Step<Option<TaskResult>>)
      requires Valid() && ran.key == task.key && manager.disk.journals.Keys <= {task.key}
      requires ran in server.log.outcomes && Ran(server.log.outcomes, ran) && from <= |manager.settlements|
      requires SettledInRun(manager.disk, manager.settlements, from, task.key)
      requires if decode(task.script).Some?
               then Told(files, manager.disk, manager.txns, task.key, decode(task.script).value)
               else manager.disk.files == files && manager.disk.journals == map[]
      requires Chain.Changed(files, manager.disk.files) <= Pair(task.script)
      modifies manager`disk, manager`verified, manager`checks, manager`settlements
      ensures Valid() && manager.disk.journals.Keys <= {task.key} && old(manager.settlements) <= manager.settlements
      ensures Chain.Changed(files, manager.disk.files) <= Pair(task.script)
      ensures r.Done? && r.value.Some? ==>
        && r.value.value.key == task.key
        && (task.key in manager.disk.journals ==> manager.disk.journals[task.key].result == r.value)
        && Known(server.log.outcomes, manager.settlements, r.value.value)
        && Truthful(files, manager.disk.files, manager.txns, task.script, r.value.value)
        && AnswersRun(ran, r.value.value, manager.settlements, from)
    {
      ghost var before := manager.disk;
      r := ResolveTraced(task, ran, from);
      if task.key in before.journals {
        Chain.Intact(manager.disk, manager.sidecar, manager.txns, task.key);
      }
      Chain.ChangedNothing(before.files);
      Chain.ChangedTwice(files, before.files, manager.disk.files, Pair(task.script));
    }

    /** The same, without regard to the files. */
    method ResolveTraced(task: Task, ran: TaskResult, ghost from: nat) returns (r: Step<Option<TaskResult>>)
      requires Valid() && ran.key == task.key && manager.disk.journals.Keys <= {task.key}
      requires ran in server.log.outcomes && Ran(server.log.outcomes, ran) && from <= |manager.settlements|
      requires SettledInRun(manager.disk, manager.settlements, from, task.key)
      modifies manager`disk, manager`verified, manager`checks, manager`settlements
      ensures Valid() && manager.disk.journals.Keys == old(manager.disk).journals.Keys
      ensures old(manager.settlements) <= manager.settlements
      ensures task.key !in old(manager.disk).journals ==> manager.disk == old(manager.disk)
      ensures task.key in old(manager.disk).journals ==>
        Chain.OnlyPairChanged(old(manager.disk), manager.disk, manager.sidecar, task.key,
                              old(manager.disk).journals[task.key].fragmentPath)
      ensures r.Done? && r.value.Some? ==>
        && r.value.value.key == task.key
        && Known(server.log.outcomes, manager.settlements, r.value.value)
        && AnswersRun(ran, r.value.value, manager.settlements, from)
        && (if task.key in manager.disk.journals then
              && manager.disk.journals[task.key].result == r.value && task.key in manager.txns
              && Chain.Settled(manager.disk.files, manager.sidecar, manager.txns[task.key], r.value.value)
            else !Chain.Clean(r.value.value))
    {
      ghost var before := manager.disk;
      if task.key in before.journals {
        Chain.Intact(before, manager.sidecar, manager.txns, task.key);
      }
      r := manager.ResolveAfterRun(task.key, ran);
      ResolvingKeeps(decode, store.disk, before, manager.disk, server.log);
      BookedTraced(before, old(manager.checks), old(manager.settlements), task.key, Some(ran));
      if r.Done? && r.value.Some? {
        RunAnswered(before, old(manager.checks), old(manager.settlements), task.key, ran, r.value.value, from);
      }
    }

    lemma RunAnswered(c: Chain.Disk, said: seq<bool>, booked: seq<Chain.Settlement>, k: Key, ran: TaskResult,
                      r: TaskResult, from: nat)
      requires manager.Booked(c, manager.disk, said, booked, k, Some(ran))
      requires SettledInRun(c, booked, from, k) && from <= |booked|
      requires Ran(server.log.outcomes, ran)
      requires if k in manager.disk.journals then manager.disk.journals[k].result == Some(r)
               else Chain.Stamped(ran, r) && !Chain.Clean(ran) && ran in server.log.outcomes
      ensures AnswersRun(ran, r, manager.settlements, from)
      ensures Known(server.log.outcomes, manager.settlements, r)
    {
      if k in manager.disk.journals {
        if manager.settlements == booked {
          var i :| from <= i < |booked| && booked[i].ran.None? && booked[i].result == r && Chain.Justified(booked[i]);
          assert SettledBy(manager.settlements[i], ran, r);
        } else {
          assert SettledBy(manager.settlements[|booked|], ran, r);
        }
      } else {
        var i :| 0 <= i < |server.log.outcomes| && server.log.outcomes[i] == ran;
        assert Chain.Stamped(server.log.outcomes[i], r);
      }
    }

    /** The two uploads that do not come from the outbox: a task without the
        durable protocol, and a lease whose journal could not be written. */
    method PostUnjournaled(result: TaskResult) returns (r: Step<bool>)
      requires Valid() && Quiet() && !Acked(server.log, result.key)
      requires Known(server.log.outcomes, manager.settlements, result) || Unexecuted(server.log.starts, result)
      modifies server
      ensures Valid() && Reports(old(server.log), server.log)
      ensures ReceivesOnly(old(server.log), server.log, {result.key})
      ensures r.Done? && r.value ==> Acked(server.log, result.key) && result in server.log.received
    {
      ReceiveKeeps(decode, store.disk, manager.disk, server.log, result);
      ReceiveTraced(store.disk, manager.disk, server.log, manager.settlements, result);
      r := server.Post(result);
    }

    /** Begin, seen from the whole protocol. */
    method BeginKeeping(task: Task, protocol: Protocol) returns (r: Step<Outbox.Written>)
      requires Valid() && Quiet() && !Acked(server.log, task.key)
      modifies store
      ensures Valid()
      ensures r.Done? && r.value.committed && r.value.ok ==> Running(task, protocol)
      ensures r.Done? && !r.value.committed ==> !r.value.ok && Quiet()
    {
      ghost var before := store.disk;
      r := store.Begin(task, protocol);
      ghost var e: Outbox.Entry :| e.task == task && e.protocol == protocol && e.state == Outbox.Awaiting
                                && Outbox.AtMostAdds(before, store.disk, task.key, Some(e))
                                && (r.Done? && r.value.committed ==> Outbox.Current(store.disk, task.key) == Some(e));
      BeginKeeps(decode, before, store.disk, manager.disk, server.log, e);
      EntryTraced(before, store.disk, manager.disk, server.log, manager.settlements, task.key, Some(e));
    }

    /** The rest of executeTask once there is a result: journal it, clean up the
        transaction, upload. */
    method Report(result: TaskResult, linechain: bool) returns (r: Step<bool>)
      requires Valid() && store.disk.visible.Keys == {result.key} && store.Honest()
      requires Known(server.log.outcomes, manager.settlements, result)
      requires store.disk.visible[result.key].state == Outbox.Awaiting
      requires manager.disk.journals.Keys <= {result.key}
      requires result.key in manager.disk.journals ==>
        linechain && manager.disk.journals[result.key].result == Some(result)
      modifies store, manager`disk, server
      ensures Valid() && Reports(old(server.log), server.log) && manager.disk.files == old(manager.disk).files
      ensures ReceivesOnly(old(server.log), server.log, {result.key})
      ensures r.Done? && r.value ==> Quiet() && result in server.log.received
    {
      var w :- CompleteKeeping(result);
      if !w.ok {
        if w.committed {
          var ok :- ConfirmKeeping();
          if ok {
            var _ :- CleanupAndFlush(result, linechain);
          }
        }
        return Done(false);
      }
      r := CleanupAndFlush(result, linechain);
    }

    method CleanupAndFlush(result: TaskResult, linechain: bool) returns (r: Step<bool>)
      requires Valid() && store.disk.visible.Keys == {result.key} && Outbox.Holds(store.disk, result)
      requires store.disk.stale == map[] && !store.unconfirmed
      requires manager.disk.journals.Keys <= {result.key}
      requires result.key in manager.disk.journals ==>
        linechain && manager.disk.journals[result.key].result == Some(result)
      modifies store, manager`disk, server
      ensures Valid() && Reports(old(server.log), server.log) && manager.disk.files == old(manager.disk).files
      ensures ReceivesOnly(old(server.log), server.log, {result.key})
      ensures r.Done? && r.value ==> Quiet() && result in server.log.received
    {
      if linechain {
        var cleaned :- CleanupKeeping(result.key);
        if !cleaned {
          // The result stays replayable: it is uploaded but its entry is kept.
          var _ :- Flush(true);
          return Done(false);
        }
      }
      r := Flush(false);
    }

    /** executeTasks: lease order, one at a time, up to the first error or a
        shutdown. The first `done` are reported, the durable ones after exactly
        one start, and nothing after the one that failed was started. */
    method ExecuteTasks(tasks: seq<Leased>, linechainReady: bool) returns (r: Step<bool>, ghost done: nat)
      requires Valid() && Quiet() && Leasable(server.log, tasks)
      modifies store, manager, server
      ensures Valid() && done <= |tasks| && Extends(old(server.log), server.log)
      ensures old(manager.settlements) <= manager.settlements
      ensures forall i :: 0 <= i < done ==> Served(tasks[i], server.log, manager.settlements)
      ensures StartsOnly(old(server.log), server.log, tasks, if done < |tasks| then done + 1 else done)
    {
      done := 0;
      assert tasks[0..] == tasks;
      for i := 0 to |tasks|
        invariant Valid() && Quiet() && done == i && old(manager.settlements) <= manager.settlements
        invariant Progress(old(server.log), server.log, manager.settlements, tasks, i)
      {
        var stopping: bool := *;
        if stopping {
          NextMayStart(old(server.log), server.log, server.log, tasks, i);
          return Done(true), done;
        }
        ghost var before, booked := server.log, manager.settlements;
        NextUnacked(before, tasks, i);
        var executed := ExecuteTask(tasks[i], linechainReady);
        if executed.Done? && executed.value {
          NowServed(tasks[i], before, |booked|);
        }
        OneMoreServed(old(server.log), before, server.log, booked, manager.settlements, tasks, i);
        if executed.Crashed? || !executed.value {
          return executed, done;
        }
        done := done + 1;
      }
      return Done(true), done;
    }

    /** What ExecuteTask promises is what it means to be served. */
    lemma NowServed(t: Leased, h: History, from: nat)
      requires ReportsRun(t, h, server.log)
      requires t.durable && t.protocol == LinechainE3 ==>
        exists files, files' :: TruthTold(server.log.received, files, files', manager.txns, t.task,
                                          server.log.outcomes[|h.outcomes|], manager.settlements, from)
      ensures Served(t, server.log, manager.settlements)
    {
      var ran := server.log.outcomes[|h.outcomes|];
      if t.durable && t.protocol == LinechainE3 {
        var files, files' :| TruthTold(server.log.received, files, files', manager.txns, t.task, ran,
                                       manager.settlements, from);
        var i :| 0 <= i < |server.log.received| && server.log.received[i].key == t.task.key &&
          AnswersRun(ran, server.log.received[i], manager.settlements, from);
        AnswersKnown(server.log.outcomes, ran, server.log.received[i], manager.settlements, from);
        assert Accounts(t, server.log.received[i], server.log.outcomes, manager.settlements);
      } else {
        var i :| 0 <= i < |server.log.received| && Chain.Stamped(ran, server.log.received[i]) &&
          (t.durable ==> server.log.received[i] == ran);
        assert Accounts(t, server.log.received[i], server.log.outcomes, manager.settlements);
      }
    }

    /** One agent process: any number of cycles, ended by a stop or a crash. */
    method Live() returns (r: Step<bool>)
      requires Valid()
      modifies store, manager, server
      ensures Valid() && Extends(old(server.log), server.log) && old(manager.settlements) <= manager.settlements
    {
      var cycles: nat :| true;
      for i := 0 to cycles
        invariant Valid() && Extends(old(server.log), server.log) && old(manager.settlements) <= manager.settlements
      {
        ghost var log, booked := server.log, manager.settlements;
        var cycle := Cycle();
        GrowsOn(old(server.log), log, server.log, old(manager.settlements), booked, manager.settlements);
        var _ :- cycle;
      }
      return Done(true);
    }

    /** One turn of the main loop: recover, poll, execute. */
    method Cycle() returns (r: Step<bool>)
      requires Valid()
      modifies store, manager, server
      ensures Valid() && Extends(old(server.log), server.log) && old(manager.settlements) <= manager.settlements
    {
      var recovered :- RequireLinechainRecovered();
      if !recovered {
        return Done(false);
      }
      r := PollAndExecute();
    }

    method PollAndExecute() returns (r: Step<bool>)
      requires Valid()
      modifies store, manager, server
      ensures Valid() && Extends(old(server.log), server.log) && old(manager.settlements) <= manager.settlements
    {
      var tasks :- PollTasks();
      if tasks.None? {
        return Done(false);
      }
      var linechainReady: bool := *;
      var executed, _ := ExecuteTasks(tasks.value, linechainReady);
      r := executed;
    }

    /** Every run: any number of processes, each ended anywhere, with or
        without a power loss in between. Whatever happened, every journaled
        lease's script started at most once and the server never saw two
        results for one lease. Every result it saw is the outcome of a run, the
        result of a transaction that was settled as the run and the service
        allowed, an unknown outcome, or the report that nothing ran. */
    method Run(processes: nat)
      requires Valid()
      modifies store, manager, server
      ensures Valid() && Safe(server.log) && Extends(old(server.log), server.log)
      ensures old(manager.settlements) <= manager.settlements
      ensures ReceivedKnown(server.log, manager.settlements) && SettlementsJustified(server.log, manager.settlements)
    {
      for i := 0 to processes
        invariant Valid() && Extends(old(server.log), server.log) && old(manager.settlements) <= manager.settlements
      {
        var _ := Live();
        var powerLost: bool := *;
        if powerLost {
          ghost var before := store.disk;
          store.LosePower();
          Outbox.PowerLossNarrows(before, store.disk);
          NarrowingKeeps(decode, before, store.disk, manager.disk, server.log);
          NarrowingTraced(before, store.disk, manager.disk, server.log, manager.settlements);
        }
        store.Reopen();
      }
      JointMeans(decode, store.disk, manager.disk, server.log);
      TracedMeans(store.disk, manager.disk, server.log, manager.settlements);
    }
  }

  /** The run of this lease ended, and the server has what it ended with; a
      linechain lease is answered by its transaction. */
  ghost predicate ReportsRun(t: Leased, h: History, h': History) {
    && |h'.outcomes| == |h.outcomes| + 1 && h.outcomes <= h'.outcomes
    && var ran := h'.outcomes[|h.outcomes|];
    && ran.key == t.task.key && (t.durable ==> t.task.key in h'.starts) && Acked(h', t.task.key)
    && (!(t.durable && t.protocol == LinechainE3) ==>
        exists i :: 0 <= i < |h'.received| && Chain.Stamped(ran, h'.received[i]) &&
          (t.durable ==> h'.received[i] == ran))
  }

  /** A result that may be reported for this lease. */
  ghost predicate Accounts(t: Leased, r: TaskResult, outcomes: seq<TaskResult>, booked: seq<Chain.Settlement>) {
    && r.key == t.task.key
    && (if t.durable && t.protocol == LinechainE3 then Ran(outcomes, r) || Transacted(booked, r)
        else if t.durable then r in outcomes
        else Ran(outcomes, r))
  }

  /** Such a result was received, after a start if the lease is durable. */
  ghost predicate Served(t: Leased, h: History, booked: seq<Chain.Settlement>) {
    && (t.durable ==> t.task.key in h.starts)
    && exists i :: 0 <= i < |h.received| && Accounts(t, h.received[i], h.outcomes, booked)
  }

  /** One of the first n leases has this key. */
  ghost predicate Among(tasks: seq<Leased>, n: nat, k: Key)
    requires n <= |tasks|
  {
    exists i :: 0 <= i < n && tasks[i].task.key == k
  }

  /** Every new start is one of the first n leases. */
  ghost predicate StartsOnly(h: History, h': History, tasks: seq<Leased>, n: nat)
    requires n <= |tasks|
  {
    h.starts <= h'.starts && forall j :: |h.starts| <= j < |h'.starts| ==> Among(tasks, n, h'.starts[j])
  }

  lemma NextMayStart(h0: History, h: History, h': History, tasks: seq<Leased>, n: nat)
    requires n < |tasks| && StartsOnly(h0, h, tasks, n)
    requires h'.starts == h.starts || h'.starts == h.starts + [tasks[n].task.key]
    ensures StartsOnly(h0, h', tasks, n + 1)
  {
    forall j | |h0.starts| <= j < |h'.starts| ensures Among(tasks, n + 1, h'.starts[j]) {
      if j < |h.starts| {
        assert Among(tasks, n, h.starts[j]);
      }
    }
  }

  /** The first n are served, no other new one started, and the rest may be. */
  ghost predicate Progress(h0: History, h: History, booked: seq<Chain.Settlement>, tasks: seq<Leased>, n: nat)
    requires n <= |tasks|
  {
    && Leasable(h, tasks[n..]) && (forall j :: 0 <= j < n ==> Served(tasks[j], h, booked))
    && StartsOnly(h0, h, tasks, n) && Extends(h0, h)
  }

  lemma NextUnacked(h: History, tasks: seq<Leased>, n: nat)
    requires n < |tasks| && Leasable(h, tasks[n..])
    ensures !Acked(h, tasks[n].task.key)
  {
    assert tasks[n..][0] == tasks[n];
  }

  lemma OneMoreServed(h0: History, h: History, h': History, booked: seq<Chain.Settlement>,
                      booked': seq<Chain.Settlement>, tasks: seq<Leased>, n: nat)
    requires n < |tasks| && Progress(h0, h, booked, tasks, n) && ReceivesOnly(h, h', {tasks[n].task.key})
    requires h'.starts == h.starts || h'.starts == h.starts + [tasks[n].task.key]
    requires h.outcomes <= h'.outcomes && booked <= booked'
    ensures (forall j :: 0 <= j < n ==> Served(tasks[j], h', booked')) && StartsOnly(h0, h', tasks, n + 1)
    ensures Extends(h0, h')
    ensures Served(tasks[n], h', booked') ==> Progress(h0, h', booked', tasks, n + 1)
  {
    NextMayStart(h0, h, h', tasks, n);
    forall j | 0 <= j < n ensures Served(tasks[j], h', booked') {
      StillServed(h, h', booked, booked', tasks[j]);
    }
    assert tasks[n..][0] == tasks[n] && tasks[n..][1..] == tasks[n + 1..];
    StillLeasable(h, h', tasks[n..]);
  }

  lemma StillServed(h: History, h': History, booked: seq<Chain.Settlement>, booked': seq<Chain.Settlement>, t: Leased)
    requires Served(t, h, booked) && Extends(h, h') && booked <= booked'
    ensures Served(t, h', booked')
  {
    var i :| 0 <= i < |h.received| && Accounts(t, h.received[i], h.outcomes, booked);
    StillKnown(h.outcomes, h'.outcomes, booked, booked', h.received[i]);
    assert Accounts(t, h'.received[i], h'.outcomes, booked');
  }

  lemma StillLeasable(h: History, h': History, tasks: seq<Leased>)
    requires |tasks| > 0 && Leasable(h, tasks) && ReceivesOnly(h, h', {tasks[0].task.key})
    ensures Leasable(h', tasks[1..])
  {
    forall i, j | 0 <= i < |tasks[1..]| && 0 <= j < |h'.received| ensures h'.received[j].key != tasks[1..][i].task.key {
      assert tasks[1..][i] == tasks[i + 1];
      if j < |h.received| {
        assert h'.received[j] == h.received[j];
      }
    }
  }

  /** The transaction of lease k ended with a result that the outbox holds, the
      one journaled before if there was one, and the pair is the one that
      result speaks of. */
  ghost predicate RecoveredAs(o: Outbox.Disk, files: map<string, string>, sidecar: string, txns: map<Key,
                              Chain.Txn>, k: Key, journaled: Option<TaskResult>) {
    && k in txns
    && exists result ::
       Outbox.Holds(o, result) && result.key == k && Chain.Settled(files, sidecar, txns[k], result)
                  && (journaled.Some? ==> result == journaled.value)
  }
}
