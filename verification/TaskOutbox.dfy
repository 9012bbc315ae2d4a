/** The outbox: one journal file per lease, replaced by the result before
    upload and removed after the acknowledgement
    (internal/taskoutbox/outbox.go). */
module TaskOutbox {
  import opened Common
  import opened Tasks

  const MAX_ENTRIES := 1024

  datatype State = Awaiting | Completed(result: TaskResult)

  datatype Entry = Entry(task: Task, protocol: Protocol, state: State, startedAt: nat, updatedAt: nat)

  /** The outbox directory in two layers. `visible` is what a read sees.
      `stale[k]` holds the earlier contents of file k that a power loss may
      bring back, because no directory sync has confirmed a change since. */
  datatype Disk = Disk(visible: map<Key, Entry>, stale: map<Key, set<Option<Entry>>>)

  function Current(d: Disk, k: Key): Option<Entry> {
    if k in d.visible then Some(d.visible[k]) else None
  }

  /** Everything file k may hold after a power loss at this instant. */
  function Survivors(d: Disk, k: Key): set<Option<Entry>> {
    {Current(d, k)} + if k in d.stale then d.stale[k] else {}
  }

  /** A rename, link or unlink whose directory has not been synced yet. */
  function Put(d: Disk, k: Key, v: Option<Entry>): Disk {
    Disk(if v.Some? then d.visible[k := v.value] else d.visible - {k},
         d.stale[k := Survivors(d, k)])
  }

  /** A directory sync promotes every visible change. */
  function Synced(d: Disk): Disk {
    Disk(d.visible, map[])
  }

  /** A power loss keeps or loses each unsynced change independently. */
  ghost predicate PowerLoss(d: Disk, d': Disk) {
    && d'.stale == map[]
    && forall k :: Current(d', k) in Survivors(d, k)
  }

  /** File k of `d` cannot change at a power loss. */
  predicate Durable(d: Disk, k: Key) {
    Survivors(d, k) == {Current(d, k)}
  }

  /** No crash from `d'` can surface content that a crash from `d` could not,
      except `v` at k. */
  ghost predicate AtMostAdds(d: Disk, d': Disk, k: Key, v: Option<Entry>) {
    forall q :: Survivors(d', q) <= Survivors(d, q) + if q == k then {v} else {}
  }

  ghost predicate Narrows(d: Disk, d': Disk) {
    forall q :: Survivors(d', q) <= Survivors(d, q)
  }

  lemma PutAdds(d: Disk, k: Key, v: Option<Entry>)
    ensures Current(Put(d, k, v), k) == v
    ensures forall q :: q != k ==> Current(Put(d, k, v), q) == Current(d, q)
    ensures forall q :: Survivors(Put(d, k, v), q) == Survivors(d, q) + if q == k then {v} else {}
    ensures forall q :: Survivors(Synced(Put(d, k, v)), q) == {if q == k then v else Current(d, q)}
    ensures AtMostAdds(d, Put(d, k, v), k, v) && AtMostAdds(d, Synced(Put(d, k, v)), k, v) && AtMostAdds(d, d, k, v)
  {
    var d' := Put(d, k, v);
    assert forall q :: Current(Synced(d'), q) == Current(d', q);
    assert forall q :: Survivors(Synced(d'), q) == {Current(d', q)} <= Survivors(d', q);
  }

  lemma PowerLossNarrows(d: Disk, d': Disk)
    requires PowerLoss(d, d')
    ensures Narrows(d, d')
  {
    forall q ensures Survivors(d', q) <= Survivors(d, q) {
      assert Survivors(d', q) == {Current(d', q)};
    }
  }

  /** `e` as Complete and RecoverInterrupted rewrite it. */
  predicate CompletionOf(e: Entry, e': Entry, result: TaskResult) {
    && e.state == Awaiting
    && result.key == e.task.key
    && e' == e.(state := Completed(result), updatedAt := e'.updatedAt)
  }

  /** Nobody knows how the script ended: the agent stopped while it ran. */
  predicate UnknownOutcome(result: TaskResult) {
    result.exitCode == -1 && result.error == OutcomeUnknown
  }

  /** A completed entry stays as it is, an interrupted one gets an unknown outcome. */
  predicate Recovered(e: Entry, e': Entry) {
    e'.state.Completed? && if e.state.Completed? then e' == e else UnknownOutcome(e'.state.result)
  }

  /** `v` gives an unknown outcome to a lease entry, other than a linechain one,
      that file q of `d` holds or may hold again. */
  ghost predicate CompletesInterrupted(d: Disk, q: Key, v: Option<Entry>) {
    && v.Some? && v.value.state.Completed? && UnknownOutcome(v.value.state.result)
    && exists e ::
       Some(e) in Survivors(d, q) && e.protocol != LinechainE3 && CompletionOf(e, v.value, v.value.state.result)
  }

  ghost predicate OnlyCompletesInterrupted(d: Disk, d': Disk) {
    forall q, v :: v in Survivors(d', q) ==> v in Survivors(d, q) || CompletesInterrupted(d, q, v)
  }

  lemma CompletingOneMore(d0: Disk, d: Disk, d': Disk, k: Key, e: Entry)
    requires OnlyCompletesInterrupted(d0, d)
    requires Some(e) in Survivors(d0, k) && e.protocol != LinechainE3
    requires exists e', result ::
      CompletionOf(e, e', result) && UnknownOutcome(result) && AtMostAdds(d, d', k, Some(e'))
    ensures OnlyCompletesInterrupted(d0, d')
  {
    var e', result :| CompletionOf(e, e', result) && UnknownOutcome(result) && AtMostAdds(d, d', k, Some(e'));
    forall q, v | v in Survivors(d', q)
      ensures v in Survivors(d0, q) || CompletesInterrupted(d0, q, v)
    {
      if v !in Survivors(d, q) {
        assert q == k && v == Some(e');
      }
    }
  }

  ghost predicate WellFormed(d: Disk) {
    forall k, v :: v in Survivors(d, k) && v.Some? ==>
      v.value.task.key == k && (v.value.state.Completed? ==> v.value.state.result.key == k)
  }

  /** Complete answers a repeated result without looking at the disk's sync
      state, so after an unsynced completion a restart can clean up the
      transaction and a power loss can still bring the awaiting entry back. */
  lemma RepeatedCompletionMayNotBeDurable(e: Entry, e': Entry, result: TaskResult)
    requires CompletionOf(e, e', result)
    ensures var leased := Disk(map[result.key := e], map[]);
            var completed := Put(leased, result.key, Some(e'));
            Holds(completed, result) && !Durable(completed, result.key) && PowerLoss(completed, leased)
  {
    var leased := Disk(map[result.key := e], map[]);
    var completed := Put(leased, result.key, Some(e'));
    assert Current(leased, result.key) == Some(e) != Some(e') == Current(completed, result.key);
    assert Some(e) in Survivors(completed, result.key);
    assert forall k :: k != result.key ==> Current(leased, k) == None == Current(completed, k);
  }

  /** The entry for this result is visible and holds exactly it. */
  predicate Holds(d: Disk, result: TaskResult) {
    result.key in d.visible && d.visible[result.key].state == Completed(result)
  }

  /** `keys` lists `s`, each member once. */
  ghost predicate Enumerates(keys: seq<Key>, s: set<Key>) {
    && (forall k :: k in keys <==> k in s)
    && (forall i, j :: 0 <= i < j < |keys| ==> keys[i] != keys[j])
  }

  datatype Written = Written(committed: bool, ok: bool)

  /** taskoutbox.Store. A value of this class is one process's handle: `disk`
      outlives it, `unconfirmed` does not. */
  lemma {:induction false} EnumeratesAll(keys: seq<Key>, all: set<Key>)
    requires Enumerates(keys, all)
    ensures |keys| == |all|
    decreases |keys|
  {
    if keys == [] {
      assert all == {};
    } else {
      var last, front := keys[|keys| - 1], keys[..|keys| - 1];
      assert forall k :: k in front ==> k in keys;
      assert forall k :: k in keys ==> k in front || k == last;
      EnumeratesAll(front, all - {last});
    }
  }

  class Store {
    var disk: Disk
    var unconfirmed: bool

    constructor (d: Disk)
      ensures disk == d && !unconfirmed
    {
      disk := d;
      unconfirmed := false;
    }

    /** The flag tells the truth about the directory. It need not right after
        a restart: the previous process may have left changes unsynced. */
    ghost predicate Honest()
      reads this
    {
      unconfirmed || disk.stale == map[]
    }

    method SyncDir() returns (r: Step<bool>)
      modifies this`disk
      ensures disk == old(disk) || disk == Synced(old(disk))
      ensures r.Done? ==> disk == if r.value then Synced(old(disk)) else old(disk)
    {
      var fate: Fate := *;
      if fate.Works? || fate.DiesDone? {
        disk := Synced(disk);
      }
      if fate.Dies() {
        return Crashed;
      }
      return Done(fate.Works?);
    }

    /** writeEntry: publish a fully written temp file by link or rename, then
        sync the directory. `committed` says the entry became visible. */
    method WriteEntry(key: Key, entry: Entry, createOnly: bool) returns (r: Step<Written>)
      modifies this
      ensures AtMostAdds(old(disk), disk, key, Some(entry))
      ensures r.Done? ==> match r.value
        case Written(true, true) => disk == Synced(Put(old(disk), key, Some(entry))) && !unconfirmed
        case Written(true, false) => disk == Put(old(disk), key, Some(entry)) && unconfirmed
        case Written(false, ok) => !ok && disk == old(disk) && unconfirmed == old(unconfirmed)
      ensures createOnly && key in old(disk).visible && r.Done? ==> !r.value.committed
    {
      PutAdds(disk, key, Some(entry));
      var publish: Fate := *;
      if publish.FailsClean? || (createOnly && key in disk.visible) {
        return Done(Written(false, false));
      }
      if publish.DiesClean? {
        return Crashed;
      }
      disk := Put(disk, key, Some(entry));
      if publish.Dies() {
        return Crashed;
      }
      if createOnly && publish.FailsDone? {
        // The link was made but the temp file could not be removed.
        unconfirmed := true;
        return Done(Written(true, false));
      }
      var synced :- SyncDir();
      unconfirmed := !synced;
      return Done(Written(true, synced));
    }

    /** readAll: every entry in directory order, or nothing when the directory
        or one file cannot be read or there are too many. */
    method ReadAll() returns (r: Option<seq<Key>>)
      ensures r.Some? ==> Enumerates(r.value, disk.visible.Keys)
    {
      var readable: bool := *;
      if !readable || |disk.visible| > MAX_ENTRIES {
        return None;
      }
      var keys: seq<Key> := [];
      var left := disk.visible.Keys;
      while left != {}
        invariant left <= disk.visible.Keys
        invariant Enumerates(keys, disk.visible.Keys - left)
      {
        var k :| k in left;
        keys := keys + [k];
        left := left - {k};
      }
      assert disk.visible.Keys - left == disk.visible.Keys;
      return Some(keys);
    }

    /** begin. (false, ok) is an exact redelivery, (true, _) a new lease journal. */
    method Begin(task: Task, protocol: Protocol) returns (r: Step<Written>)
      modifies this
      ensures exists e: Entry :: (e.task == task && e.protocol == protocol && e.state == Awaiting)
                              && AtMostAdds(old(disk), disk, task.key, Some(e))
                              && (r.Done? && r.value.committed ==> Current(disk, task.key) == Some(e))
      ensures r.Done? && r.value.committed ==>
        && (forall k :: k in old(disk).visible ==> k.task != task.key.task)
        && disk.visible.Keys == old(disk).visible.Keys + {task.key}
        && (r.value.ok ==> disk == Synced(disk) && !unconfirmed)
        && (!r.value.ok ==> unconfirmed)
      ensures r.Done? && !r.value.committed ==> disk == old(disk) && unconfirmed == old(unconfirmed)
      ensures r.Done? && !r.value.committed && r.value.ok ==>
        && task.key in old(disk).visible
        && old(disk).visible[task.key].task == task && old(disk).visible[task.key].protocol == protocol
      ensures Blank(task.key.task) || Blank(task.key.lease) || |old(disk).visible.Keys| >= MAX_ENTRIES ==>
        disk == old(disk) && r.Done? && !r.value.committed
    {
      var now: nat :| true;
      var entry := Entry(task, protocol, Awaiting, now, now);
      assert AtMostAdds(disk, disk, task.key, Some(entry)) by { PutAdds(disk, task.key, Some(entry)); }
      var settled := Refused(task, protocol);
      if settled.Some? {
        return Done(Written(false, settled.value));
      }
      r := WriteEntry(task.key, entry, true);
    }

    /** What begin looks at first: whether nothing is to be written, and then
        whether that is because this very lease is journaled. */
    method Refused(task: Task, protocol: Protocol) returns (settled: Option<bool>)
      ensures settled == Some(true) ==> task.key in disk.visible && disk.visible[task.key].task == task
      ensures settled == Some(true) ==> disk.visible[task.key].protocol == protocol
      ensures settled.None? ==> forall k :: k in disk.visible ==> k.task != task.key.task
      ensures Blank(task.key.task) || Blank(task.key.lease) || |disk.visible.Keys| >= MAX_ENTRIES ==> settled.Some?
    {
      if Blank(task.key.task) || Blank(task.key.lease) {
        return Some(false);
      }
      var entries := ReadAll();
      if entries.None? {
        return Some(false);
      }
      EnumeratesAll(entries.value, disk.visible.Keys);
      var found, exact := Redelivered(entries.value, task, protocol);
      if found {
        return Some(exact);
      }
      return if |entries.value| >= MAX_ENTRIES then Some(false) else None;
    }

    /** Whether a lease of this task is journaled, and whether it is this very one. */
    method Redelivered(keys: seq<Key>, task: Task, protocol: Protocol) returns (found: bool, exact: bool)
      requires Enumerates(keys, disk.visible.Keys)
      ensures found <==> exists k :: k in disk.visible && k.task == task.key.task
      ensures exact ==> found && task.key in disk.visible && disk.visible[task.key].task == task
      ensures exact ==> disk.visible[task.key].protocol == protocol
      ensures found && !exact ==>
        exists k ::
          && k in disk.visible && k.task == task.key.task
          && !(k == task.key && disk.visible[k].task == task && disk.visible[k].protocol == protocol)
    {
      for i := 0 to |keys|
        invariant forall j :: 0 <= j < i ==> keys[j].task != task.key.task
      {
        var k := keys[i];
        if k.task == task.key.task {
          return true, k == task.key && disk.visible[k].task == task && disk.visible[k].protocol == protocol;
        }
      }
      return false, false;
    }

    /** Complete: replace the lease journal by its result. */
    method Complete(result: TaskResult) returns (r: Step<Written>)
      modifies this
      ensures disk == old(disk) ||
        (result.key in old(disk).visible &&
         exists e' :: CompletionOf(old(disk).visible[result.key], e', result)
                   && AtMostAdds(old(disk), disk, result.key, Some(e'))
                   && (r.Done? ==> Current(disk, result.key) == Some(e')))
      ensures r.Done? && r.value.committed ==>
        && Holds(disk, result)
        && disk.visible == old(disk).visible[result.key := disk.visible[result.key]] && result.key in old(disk).visible
        && old(disk).visible[result.key].state == Awaiting
        && (r.value.ok ==> disk == Synced(disk) && !unconfirmed)
        && (!r.value.ok ==> unconfirmed)
      ensures r.Done? && !r.value.committed ==>
        && disk == old(disk) && unconfirmed == old(unconfirmed)
        && (r.value.ok <==> Holds(disk, result))
    {
      var key := result.key;
      if key !in disk.visible {
        return Done(Written(false, false));
      }
      var entry := disk.visible[key];
      if entry.state == Completed(result) {
        return Done(Written(false, true));
      }
      if entry.state != Awaiting || entry.task.key != result.key {
        return Done(Written(false, false));
      }
      var now: nat :| true;
      var done := entry.(state := Completed(result), updatedAt := now);
      assert CompletionOf(entry, done, result);
      PutAdds(disk, key, Some(done));
      var w :- WriteEntry(key, done, false);
      return Done(w);
    }

    method ConfirmDurability() returns (r: Step<bool>)
      modifies this
      ensures disk == old(disk) || disk == Synced(old(disk))
      ensures r.Done? && r.value ==> disk == Synced(old(disk)) && !unconfirmed
      ensures r.Done? && !r.value ==> disk == old(disk) && unconfirmed == old(unconfirmed)
    {
      var synced :- SyncDir();
      if synced {
        unconfirmed := false;
      }
      return Done(synced);
    }

    /** One interrupted lease of RecoverInterrupted. A result that became
        visible but not durable is confirmed at once or not used. */
    method CompleteUnknown(k: Key, entry: Entry) returns (r: Step<bool>)
      requires Current(disk, k) == Some(entry) && entry.state == Awaiting && entry.task.key == k
      modifies this
      ensures exists e', result ::
        CompletionOf(entry, e', result) && UnknownOutcome(result) && AtMostAdds(old(disk), disk, k, Some(e'))
      ensures r.Done? && r.value ==>
        && disk.stale == map[] && !unconfirmed
        && disk.visible.Keys == old(disk).visible.Keys
        && disk.visible[k].state.Completed? && UnknownOutcome(disk.visible[k].state.result)
        && forall q :: q in disk.visible && q != k ==> disk.visible[q] == old(disk).visible[q]
    {
      var now: nat :| true;
      var result := TaskResult(entry.task.key, -1, OutcomeUnknown, now, "");
      var done := entry.(state := Completed(result), updatedAt := now);
      assert CompletionOf(entry, done, result);
      PutAdds(disk, k, Some(done));
      var w :- WriteEntry(k, done, false);
      if !w.ok {
        if !w.committed {
          return Done(false);
        }
        var confirmed :- ConfirmDurability();
        return Done(confirmed);
      }
      return Done(true);
    }

    /** RecoverInterrupted: confirm the directory, then give every interrupted
        lease an unknown-outcome result; a linechain lease is refused. */
    method RecoverInterrupted() returns (r: Step<bool>)
      requires WellFormed(disk)
      modifies this
      ensures OnlyCompletesInterrupted(old(disk), disk)
      ensures r.Done? && r.value ==>
        && disk.stale == map[] && !unconfirmed
        && disk.visible.Keys == old(disk).visible.Keys
        && forall k :: k in disk.visible ==> Recovered(old(disk).visible[k], disk.visible[k])
    {
      var confirmed :- ConfirmDurability();
      if !confirmed {
        return Done(false);
      }
      var entries := ReadAll();
      if entries.None? {
        return Done(false);
      }
      var keys := entries.value;
      ghost var start := disk;
      for i := 0 to |keys|
        invariant disk.stale == map[] && !unconfirmed
        invariant disk.visible.Keys == old(disk).visible.Keys
        invariant OnlyCompletesInterrupted(old(disk), disk)
        invariant forall j :: 0 <= j < i ==> Recovered(start.visible[keys[j]], disk.visible[keys[j]])
        invariant forall j :: i <= j < |keys| ==> disk.visible[keys[j]] == start.visible[keys[j]]
      {
        assert Some(disk.visible[keys[i]]) in Survivors(old(disk), keys[i]);
        var ok :- RecoverOne(keys[i], old(disk));
        if !ok {
          return Done(false);
        }
      }
      return Done(true);
    }

    /** One entry of RecoverInterrupted. */
    method RecoverOne(k: Key, ghost was: Disk) returns (r: Step<bool>)
      requires k in disk.visible && disk.visible[k].task.key == k && disk.stale == map[] && !unconfirmed
      requires OnlyCompletesInterrupted(was, disk) && Some(disk.visible[k]) in Survivors(was, k)
      modifies this
      ensures OnlyCompletesInterrupted(was, disk)
      ensures r.Done? && r.value ==>
        && disk.stale == map[] && !unconfirmed && disk.visible.Keys == old(disk).visible.Keys
        && Recovered(old(disk).visible[k], disk.visible[k])
        && forall q :: q in disk.visible && q != k ==> disk.visible[q] == old(disk).visible[q]
    {
      var entry := disk.visible[k];
      if entry.state != Awaiting {
        return Done(true);
      }
      if entry.protocol == LinechainE3 {
        return Done(false);
      }
      ghost var before := disk;
      r := CompleteUnknown(k, entry);
      CompletingOneMore(was, before, disk, k, entry);
    }

    /** Pending: the completed entries, refused while durability is unconfirmed. */
    method Pending() returns (r: Option<seq<Key>>)
      ensures r.Some? ==> !unconfirmed
      ensures r.Some? ==> forall k :: k in r.value <==> k in disk.visible && disk.visible[k].state.Completed?
      ensures r.Some? ==> forall i, j :: 0 <= i < j < |r.value| ==> r.value[i] != r.value[j]
    {
      if unconfirmed {
        return None;
      }
      var entries := ReadAll();
      if entries.None? {
        return None;
      }
      var pending: seq<Key> := [];
      for i := 0 to |entries.value|
        invariant forall k :: k in pending <==> k in entries.value[..i] && disk.visible[k].state.Completed?
        invariant forall a, b :: 0 <= a < b < |pending| ==> pending[a] != pending[b]
      {
        assert entries.value[..i + 1] == entries.value[..i] + [entries.value[i]];
        if disk.visible[entries.value[i]].state.Completed? {
          assert entries.value[i] !in entries.value[..i];
          pending := pending + [entries.value[i]];
        }
      }
      assert entries.value[..|entries.value|] == entries.value;
      return Some(pending);
    }

    /** Remove: unlink an acknowledged entry and sync the directory. */
    method Remove(key: Key) returns (r: Step<bool>)
      modifies this
      ensures AtMostAdds(old(disk), disk, key, None)
      ensures r.Done? && r.value ==>
        disk == Synced(Put(old(disk), key, None)) && unconfirmed == old(unconfirmed)
      ensures r.Done? && !r.value ==>
        || (disk == old(disk) && unconfirmed == old(unconfirmed))
        || (disk == Put(old(disk), key, None) && unconfirmed)
    {
      PutAdds(disk, key, None);
      var unlink: Fate := *;
      if key !in disk.visible || unlink.FailsClean? {
        return Done(false);
      }
      if unlink.DiesClean? {
        return Crashed;
      }
      disk := Put(disk, key, None);
      if unlink.Dies() {
        return Crashed;
      }
      var synced :- SyncDir();
      if !synced {
        unconfirmed := true;
      }
      return Done(synced);
    }

    /** The next process opens the directory: nothing in memory survives. */
    method Reopen()
      modifies this
      ensures disk == old(disk) && !unconfirmed
    {
      unconfirmed := false;
    }

    /** The machine loses power: each unsynced change is kept or lost. */
    method LosePower()
      modifies this`disk
      ensures PowerLoss(old(disk), disk)
    {
      var d := Disk(disk.visible, map[]);
      var left := disk.stale.Keys;
      while left != {}
        invariant left <= disk.stale.Keys && d.stale == map[] && disk == old(disk)
        invariant forall k :: Current(d, k) in Survivors(disk, k)
      {
        var k :| k in left;
        var v :| v in Survivors(disk, k);
        ghost var before := d;
        d := Disk(if v.Some? then d.visible[k := v.value] else d.visible - {k}, map[]);
        assert Current(d, k) == v && forall q :: q != k ==> Current(d, q) == Current(before, q);
        left := left - {k};
      }
      disk := d;
    }
  }
}
