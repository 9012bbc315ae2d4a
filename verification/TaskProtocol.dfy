/** What the outbox directory, the transaction directory and the server's view
    of the world have to do with each other at every instant the agent may
    stop, and the steps that keep it so. */
module TaskProtocol {
  import opened Common
  import opened Tasks
  import Outbox = TaskOutbox
  import Chain = Linechain

  /** Everything that leaves the machine or cannot be undone: scripts started
      under a journaled lease, results the server accepted, and how runs ended, each
      in order. */
  datatype History = History(starts: seq<Key>, received: seq<TaskResult>, outcomes: seq<TaskResult>)

  ghost predicate Acked(h: History, k: Key) {
    exists i :: 0 <= i < |h.received| && h.received[i].key == k
  }

  /** No journaled lease's script starts twice, and no lease gets two results. */
  ghost predicate Safe(h: History) {
    && (forall i, j :: 0 <= i < j < |h.starts| ==> h.starts[i] != h.starts[j])
    && (forall i, j :: 0 <= i < |h.received| && 0 <= j < |h.received| && h.received[i].key == h.received[j].key ==>
          h.received[i] == h.received[j])
  }

  /** The document a canonical linechain script carries, if any. */
  type Decoder = string -> Option<Chain.Document>

  /** What captureLinechainAuthority demands of an entry with a journal. */
  predicate Matches(decode: Decoder, e: Outbox.Entry, j: Chain.Journal) {
    && e.protocol == LinechainE3
    && j.script == Sha256(e.task.script)
    && decode(e.task.script).Some? && decode(e.task.script).value.artifact == j.artifact
    && (e.state.Completed? ==> j.result == Some(e.state.result))
  }

  /** An acknowledged lease can only come back as the result that was acknowledged. */
  ghost predicate ReceivedStays(o: Outbox.Disk, h: History) {
    forall i, v :: 0 <= i < |h.received| && v in Outbox.Survivors(o, h.received[i].key) && v.Some? ==>
      v.value.state == Outbox.Completed(h.received[i])
  }

  /** A started lease keeps its entry through any crash until it is acknowledged. */
  ghost predicate StartedStays(o: Outbox.Disk, h: History) {
    forall i :: 0 <= i < |h.starts| ==> Acked(h, h.starts[i]) || None !in Outbox.Survivors(o, h.starts[i])
  }

  /** A linechain journal has an entry that matches it after any crash. */
  ghost predicate JournalsHaveEntries(decode: Decoder, o: Outbox.Disk, c: Chain.Disk) {
    forall k, v :: k in c.journals && v in Outbox.Survivors(o, k) ==> v.Some? && Matches(decode, v.value, c.journals[k])
  }

  ghost predicate BackupsWereStarted(c: Chain.Disk, h: History) {
    forall k :: k in c.fragmentBackups || k in c.sidecarBackups ==> k in h.starts
  }

  /** What has to hold between the three at every instant. */
  datatype Law = EntriesWellFormed | HistorySafe | AcknowledgedStays | StartedLeaseStays | JournalHasEntry
      | BackupWasStarted

  ghost predicate Kept(law: Law, decode: Decoder, o: Outbox.Disk, c: Chain.Disk, h: History) {
    match law
    case EntriesWellFormed => Outbox.WellFormed(o)
    case HistorySafe => Safe(h)
    case AcknowledgedStays => ReceivedStays(o, h)
    case StartedLeaseStays => StartedStays(o, h)
    case JournalHasEntry => JournalsHaveEntries(decode, o, c)
    case BackupWasStarted => BackupsWereStarted(c, h)
  }

  ghost function Violated(decode: Decoder, o: Outbox.Disk, c: Chain.Disk, h: History): set<Law> {
    set law: Law | !Kept(law, decode, o, c, h)
  }

  ghost predicate Joint(decode: Decoder, o: Outbox.Disk, c: Chain.Disk, h: History) {
    Violated(decode, o, c, h) == {}
  }

  lemma JointMeans(decode: Decoder, o: Outbox.Disk, c: Chain.Disk, h: History)
    ensures Joint(decode, o, c, h) <==>
      && Outbox.WellFormed(o) && Safe(h) && ReceivedStays(o, h) && StartedStays(o, h)
      && JournalsHaveEntries(decode, o, c) && BackupsWereStarted(c, h)
  {
    var v := Violated(decode, o, c, h);
    assert EntriesWellFormed in v <==> !Outbox.WellFormed(o);
    assert HistorySafe in v <==> !Safe(h);
    assert AcknowledgedStays in v <==> !ReceivedStays(o, h);
    assert StartedLeaseStays in v <==> !StartedStays(o, h);
    assert JournalHasEntry in v <==> !JournalsHaveEntries(decode, o, c);
    assert BackupWasStarted in v <==> !BackupsWereStarted(c, h);
  }

  lemma NothingJoint(decode: Decoder, files: map<string, string>)
    ensures Joint(decode, Outbox.Disk(map[], map[]), Chain.Disk(files, map[], map[], map[]), History([], [], []))
  {
    JointMeans(decode, Outbox.Disk(map[], map[]), Chain.Disk(files, map[], map[], map[]), History([], [], []));
  }

  /** Directory syncs, power losses and lost unsynced changes. */
  lemma NarrowingKeeps(decode: Decoder, o: Outbox.Disk, o': Outbox.Disk, c: Chain.Disk, h: History)
    requires Joint(decode, o, c, h) && Outbox.Narrows(o, o')
    ensures Joint(decode, o', c, h)
  {
    JointMeans(decode, o, c, h);
    JointMeans(decode, o', c, h);
    forall i | 0 <= i < |h.starts| ensures Acked(h, h.starts[i]) || None !in Outbox.Survivors(o', h.starts[i]) {
      assert Outbox.Survivors(o', h.starts[i]) <= Outbox.Survivors(o, h.starts[i]);
    }
  }

  /** Giving interrupted leases an unknown-outcome result cannot collide with a
      result already received: the entry of an acknowledged lease is completed. */
  lemma RecoveryKeeps(decode: Decoder, o: Outbox.Disk, o': Outbox.Disk, c: Chain.Disk, h: History)
    requires Joint(decode, o, c, h) && Outbox.OnlyCompletesInterrupted(o, o')
    ensures Joint(decode, o', c, h)
  {
    JointMeans(decode, o, c, h);
    JointMeans(decode, o', c, h);
    forall q, v | v in Outbox.Survivors(o', q) && v !in Outbox.Survivors(o, q)
      ensures v.Some? && !Acked(h, q) && q !in c.journals
    {
      assert Outbox.CompletesInterrupted(o, q, v);
    }
  }

  lemma BeginKeeps(decode: Decoder, o: Outbox.Disk, o': Outbox.Disk, c: Chain.Disk, h: History, e: Outbox.Entry)
    requires Joint(decode, o, c, h) && Outbox.AtMostAdds(o, o', e.task.key, Some(e))
    requires e.state == Outbox.Awaiting && !Acked(h, e.task.key) && e.task.key !in c.journals
    ensures Joint(decode, o', c, h)
  {
    JointMeans(decode, o, c, h);
    JointMeans(decode, o', c, h);
    forall q, v | v in Outbox.Survivors(o', q) && v !in Outbox.Survivors(o, q)
      ensures q == e.task.key && v == Some(e)
    {
    }
  }

  /** Completing a lease that may still be awaiting: its result is new to the
      server, and a linechain one is the journaled one. */
  lemma CompleteKeeps(decode: Decoder, o: Outbox.Disk, o': Outbox.Disk, c: Chain.Disk, h: History, e: Outbox.Entry,
                      e': Outbox.Entry, r: TaskResult)
    requires Joint(decode, o, c, h) && Some(e) in Outbox.Survivors(o, r.key)
    requires Outbox.CompletionOf(e, e', r) && Outbox.AtMostAdds(o, o', r.key, Some(e'))
    requires r.key in c.journals ==> c.journals[r.key].result == Some(r)
    ensures Joint(decode, o', c, h)
  {
    JointMeans(decode, o, c, h);
    JointMeans(decode, o', c, h);
    assert !Acked(h, r.key);
    forall q, v | v in Outbox.Survivors(o', q) && v !in Outbox.Survivors(o, q) ensures q == r.key && v == Some(e') {}
  }

  lemma RemoveKeeps(decode: Decoder, o: Outbox.Disk, o': Outbox.Disk, c: Chain.Disk, h: History, k: Key)
    requires Joint(decode, o, c, h) && Outbox.AtMostAdds(o, o', k, None)
    requires Acked(h, k) && k !in c.journals
    ensures Joint(decode, o', c, h)
  {
    JointMeans(decode, o, c, h);
    JointMeans(decode, o', c, h);
    forall q, v | v in Outbox.Survivors(o', q) && v !in Outbox.Survivors(o, q) ensures q == k && v == None {}
  }

  /** A script may start once its lease entry survives any crash. */
  lemma StartKeeps(decode: Decoder, o: Outbox.Disk, c: Chain.Disk, h: History, k: Key)
    requires Joint(decode, o, c, h) && None !in Outbox.Survivors(o, k) && k !in h.starts
    ensures Joint(decode, o, c, h.(starts := h.starts + [k]))
  {
    JointMeans(decode, o, c, h);
    JointMeans(decode, o, c, h.(starts := h.starts + [k]));
    var h' := h.(starts := h.starts + [k]);
    assert forall q :: Acked(h', q) <==> Acked(h, q);
  }

  /** How a run ended changes nothing between the three. */
  lemma EndKeeps(decode: Decoder, o: Outbox.Disk, c: Chain.Disk, h: History, ran: TaskResult)
    requires Joint(decode, o, c, h)
    ensures Joint(decode, o, c, h.(outcomes := h.outcomes + [ran]))
  {
    var h' := h.(outcomes := h.outcomes + [ran]);
    JointMeans(decode, o, c, h);
    JointMeans(decode, o, c, h');
    assert forall q :: Acked(h', q) <==> Acked(h, q);
  }

  /** A lease that was never journaled and never acknowledged never started. */
  lemma UnjournaledNeverStarted(decode: Decoder, o: Outbox.Disk, c: Chain.Disk, h: History, k: Key)
    requires Joint(decode, o, c, h) && None in Outbox.Survivors(o, k) && !Acked(h, k)
    ensures k !in h.starts && k !in c.fragmentBackups && k !in c.sidecarBackups
  {
    JointMeans(decode, o, c, h);
  }

  /** A result may be accepted if no crash can leave a different entry behind
      and no different result was accepted before. */
  lemma ReceiveKeeps(decode: Decoder, o: Outbox.Disk, c: Chain.Disk, h: History, r: TaskResult)
    requires Joint(decode, o, c, h)
    requires forall v :: v in Outbox.Survivors(o, r.key) && v.Some? ==> v.value.state == Outbox.Completed(r)
    requires !Acked(h, r.key) || exists v :: v in Outbox.Survivors(o, r.key) && v.Some?
    ensures Joint(decode, o, c, h.(received := h.received + [r])) && Acked(h.(received := h.received + [r]), r.key)
  {
    JointMeans(decode, o, c, h);
    JointMeans(decode, o, c, h.(received := h.received + [r]));
    var h' := h.(received := h.received + [r]);
    assert h'.received[|h.received|] == r;
    forall q ensures Acked(h', q) <==> Acked(h, q) || q == r.key {
      if Acked(h, q) {
        var i :| 0 <= i < |h.received| && h.received[i].key == q;
        assert h'.received[i].key == q;
      }
    }
  }

  /** A linechain step that resolves a journal without changing which task and
      document it is for. */
  ghost predicate OnlyResolves(c: Chain.Disk, c': Chain.Disk) {
    && c'.fragmentBackups.Keys <= c.fragmentBackups.Keys && c'.sidecarBackups.Keys <= c.sidecarBackups.Keys
    && Rebound(c, c') == {}
  }

  /** Journals of c' that are new, about something else, or resolved anew. */
  ghost function Rebound(c: Chain.Disk, c': Chain.Disk): set<Key> {
    set k | k in c'.journals && !(
      && k in c.journals && Chain.Authority(c'.journals[k]) == Chain.Authority(c.journals[k])
      && (c.journals[k].result.Some? ==> c'.journals[k].result == c.journals[k].result))
  }

  lemma CleaningResolves(c: Chain.Disk, c': Chain.Disk, k: Key)
    requires c'.fragmentBackups.Keys <= c.fragmentBackups.Keys && c'.sidecarBackups.Keys <= c.sidecarBackups.Keys
    requires c'.journals == c.journals || c'.journals == c.journals - {k}
    ensures OnlyResolves(c, c')
  {
    assert Rebound(c, c') == {};
  }

  lemma SettlingResolves(c: Chain.Disk, c': Chain.Disk, sidecar: string, k: Key, path: string)
    requires c.journals.Keys == {k} && Chain.OnlyPairChanged(c, c', sidecar, k, path)
    requires c.journals[k].result.Some? ==> c' == c
    ensures OnlyResolves(c, c')
  {
    assert Rebound(c, c') == {};
  }

  lemma ResolvingKeeps(decode: Decoder, o: Outbox.Disk, c: Chain.Disk, c': Chain.Disk, h: History)
    requires Joint(decode, o, c, h) && OnlyResolves(c, c')
    ensures Joint(decode, o, c', h)
  {
    JointMeans(decode, o, c, h);
    JointMeans(decode, o, c', h);
    forall k, v | k in c'.journals && v in Outbox.Survivors(o, k)
      ensures v.Some? && Matches(decode, v.value, c'.journals[k])
    {
      assert k !in Rebound(c, c');
      assert Matches(decode, v.value, c.journals[k]);
    }
  }

  /** Apply's first journal for a lease that is running. */
  lemma NewJournalKeeps(decode: Decoder, o: Outbox.Disk, c: Chain.Disk, c': Chain.Disk, h: History, k: Key,
                        e: Outbox.Entry)
    requires Joint(decode, o, c, h) && k in h.starts
    requires Outbox.Survivors(o, k) == {Some(e)}
    requires c'.fragmentBackups.Keys <= c.fragmentBackups.Keys + {k}
    requires c'.sidecarBackups.Keys <= c.sidecarBackups.Keys + {k}
    requires c'.journals.Keys <= {k} && (k in c'.journals ==> Matches(decode, e, c'.journals[k]))
    ensures Joint(decode, o, c', h)
  {
    JointMeans(decode, o, c, h);
    JointMeans(decode, o, c', h);
  }
}
