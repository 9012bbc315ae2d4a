/** The linechain transaction: a fragment file and the shared sidecar file are
    replaced together, under backups and a phase journal
    (internal/linechain/manager.go). */
module Linechain {
  import opened Common
  import opened Tasks

  datatype Phase = Prepared | FragmentPublished | PairPublished | DesiredVerified | OldRestored | TerminalDesired
      | TerminalOld

  predicate Terminal(p: Phase) {
    p.TerminalDesired? || p.TerminalOld?
  }

  datatype Journal = Journal(
    key: Key, fragmentPath: string,
    fragmentHad: bool, fragmentOld: Digest, sidecarHad: bool, sidecarOld: Digest,
    fragmentOut: Digest, sidecarOut: Digest, script: Digest, artifact: Digest,
    phase: Phase, result: Option<TaskResult>)

  /** An accepted apply document: decoded, bound to its digests and inside the
      local layout. `merge` is the sidecar patch as a partial function of the
      current sidecar text. */
  datatype Document = Document(fragmentPath: string, fragment: Option<string>, previousFragment: Digest,
                               merge: string -> Option<string>, artifact: Digest)

  /** The host's files and the private transaction directory. Each publication
      and each journal write is one atomic, durable change. */
  datatype Disk = Disk(files: map<string, string>, journals: map<Key, Journal>, fragmentBackups: map<Key, string>,
                       sidecarBackups: map<Key, string>)

  function Read<K>(m: map<K, string>, p: K): Option<string> {
    if p in m then Some(m[p]) else None
  }

  function Write<K>(m: map<K, string>, p: K, content: Option<string>): map<K, string> {
    if content.Some? then m[p := content.value] else m - {p}
  }

  function Authority(j: Journal): Journal {
    j.(phase := Prepared, result := None)
  }

  /** validateJournal: what every reader of a journal checks first. */
  predicate ValidJournal(d: Disk, k: Key, j: Journal) {
    && j.key == k
    && Terminal(j.phase) == j.result.Some?
    && (j.result.Some? ==> j.result.value.key == k && j.result.value.finishedAt != 0)
    && j.fragmentHad == j.fragmentOld.Sha256? && j.sidecarHad == j.sidecarOld.Sha256?
    && j.sidecarOut.Sha256? && j.script.Sha256? && j.artifact.Sha256?
    && (Terminal(j.phase) ||
        (DigestMaybe(Read(d.fragmentBackups, k)) == j.fragmentOld &&
         DigestMaybe(Read(d.sidecarBackups, k)) == j.sidecarOld))
  }

  /** pairMatches. */
  predicate PairMatches(d: Disk, sidecar: string, j: Journal, desired: bool) {
    var f, s := Read(d.files, j.fragmentPath), Read(d.files, sidecar);
    if desired then DigestMaybe(f) == j.fragmentOut && DigestMaybe(s) == j.sidecarOut
    else
      && f.Some? == j.fragmentHad && s.Some? == j.sidecarHad
      && DigestMaybe(f) == j.fragmentOld && DigestMaybe(s) == j.sidecarOld
  }

  /** What one transaction is about: the pair found when its journal was first
      written and the pair its document asks for. */
  datatype Txn = Txn(path: string, oldFragment: Option<string>, oldSidecar: Option<string>,
                     newFragment: Option<string>, newSidecar: Option<string>)

  predicate IsOld(files: map<string, string>, sidecar: string, t: Txn) {
    Read(files, t.path) == t.oldFragment && Read(files, sidecar) == t.oldSidecar
  }

  predicate IsDesired(files: map<string, string>, sidecar: string, t: Txn) {
    Read(files, t.path) == t.newFragment && Read(files, sidecar) == t.newSidecar
  }

  /** The pair is exactly the one its result speaks of. */
  predicate Settled(files: map<string, string>, sidecar: string, t: Txn, result: TaskResult) {
    if result.exitCode == 0 then IsDesired(files, sidecar, t) && result.error == NoProblem else IsOld(files, sidecar, t)
  }

  /** How a transaction came to its result: after a run that ended as `ran`, or
      without one; from which phase, whether the desired pair was on disk, and
      what the service checks said, in order. */
  datatype Settlement = Settlement(ran: Option<TaskResult>, phase: Phase, desired: bool, checks: seq<bool>,
                                   result: TaskResult)

  /** The script ended without a failure. */
  predicate Clean(ran: TaskResult) {
    ran.exitCode == 0 && ran.error == NoProblem
  }

  /** The desired pair may stay: it was verified once, it is still there, and the
      run, if there was one, did not fail. */
  predicate MayStay(s: Settlement) {
    s.phase == DesiredVerified && s.desired && (s.ran.Some? ==> Clean(s.ran.value))
  }

  /** The result says what happened. Exit 0 means that the desired pair could
      stay and the service was active on it; a failed run keeps its exit code and
      its error. */
  ghost predicate Justified(s: Settlement) {
    var result := s.result;
    && (if MayStay(s) then
          || (s.checks == [true] && result.exitCode == 0 && result.error == NoProblem)
          || (s.checks == [false, true] && result.exitCode == -1 && result.error == Unverified)
        else
          && s.checks == [true]
          && match s.ran
             case None => result.exitCode == -1 && result.error == Interrupted
             case Some(ran) =>
               && result.exitCode == (if ran.exitCode == 0 then -1 else ran.exitCode)
               && result.error == (if ran.error == NoProblem then PairRestored else ran.error))
    && (s.ran.Some? ==> Stamped(s.ran.value, result.(exitCode := s.ran.value.exitCode, error := s.ran.value.error)))
  }

  /** The outcome of a run as it is passed on: with the time it lacked. */
  predicate Stamped(ran: TaskResult, result: TaskResult) {
    result == if ran.finishedAt == 0 then ran.(finishedAt := result.finishedAt) else ran
  }

  /** A failed run is never turned into a success, and its own exit code and error
      are what is reported. */
  lemma FailureNotHidden(s: Settlement)
    requires Justified(s) && s.ran.Some? && !Clean(s.ran.value)
    ensures s.result.exitCode != 0
    ensures s.ran.value.exitCode != 0 ==> s.result.exitCode == s.ran.value.exitCode
    ensures s.ran.value.error != NoProblem ==> s.result.error == s.ran.value.error
  {
  }

  /** What holds between a journal, its transaction and the disk whenever the
      agent may stop. */
  ghost predicate Fits(files: map<string, string>, fragmentBackup: Option<string>, sidecarBackup: Option<string>,
                       sidecar: string, k: Key, j: Journal, t: Txn) {
    && j.key == k && j.fragmentPath == t.path != sidecar
    && j.fragmentHad == t.oldFragment.Some? && j.fragmentOld == DigestMaybe(t.oldFragment)
    && j.sidecarHad == t.oldSidecar.Some? && j.sidecarOld == DigestMaybe(t.oldSidecar)
    && j.fragmentOut == DigestMaybe(t.newFragment)
    && t.newSidecar.Some? && j.sidecarOut == DigestMaybe(t.newSidecar)
    && j.script.Sha256? && j.artifact.Sha256?
    && Terminal(j.phase) == j.result.Some?
    && (if j.result.Some? then
          && j.result.value.key == k && j.result.value.finishedAt != 0
          && j.phase.TerminalDesired? == (j.result.value.exitCode == 0)
          && Settled(files, sidecar, t, j.result.value)
        else
          && fragmentBackup == t.oldFragment && sidecarBackup == t.oldSidecar
          && Read(files, t.path) in {t.oldFragment, t.newFragment}
          && Read(files, sidecar) in {t.oldSidecar, t.newSidecar})
  }

  ghost predicate Consistent(d: Disk, sidecar: string, k: Key, j: Journal, t: Txn) {
    Fits(d.files, Read(d.fragmentBackups, k), Read(d.sidecarBackups, k), sidecar, k, j, t)
  }

  /** The journals that do not fit their transaction and the disk. The manager
      keeps this set empty. */
  ghost function Broken(d: Disk, sidecar: string, txns: map<Key, Txn>): set<Key> {
    set k | k in d.journals && !(k in txns && Consistent(d, sidecar, k, d.journals[k], txns[k]))
  }

  ghost predicate Inv(d: Disk, sidecar: string, txns: map<Key, Txn>) {
    Broken(d, sidecar, txns) == {} && |d.journals| <= 1
  }

  lemma Intact(d: Disk, sidecar: string, txns: map<Key, Txn>, k: Key)
    requires Inv(d, sidecar, txns) && k in d.journals
    ensures k in txns && Consistent(d, sidecar, k, d.journals[k], txns[k])
    ensures d.journals.Keys == {k}
  {
    assert k !in Broken(d, sidecar, txns);
    assert |d.journals.Keys - {k}| == |d.journals.Keys| - 1;
  }

  /** In every state the agent can stop in, every journal present passes the
      validation that recovery, retry and snapshot start with. */
  lemma ReachableJournalsValidate(d: Disk, sidecar: string, txns: map<Key, Txn>)
    requires Inv(d, sidecar, txns)
    ensures forall k :: k in d.journals ==> ValidJournal(d, k, d.journals[k])
  {
    forall k | k in d.journals ensures ValidJournal(d, k, d.journals[k]) {
      Intact(d, sidecar, txns, k);
    }
  }

  /** Comparing digests decides exactly whether the pair is the old or the
      desired one. */
  lemma PairMatchesMeans(d: Disk, sidecar: string, txns: map<Key, Txn>, k: Key)
    requires Inv(d, sidecar, txns) && k in d.journals
    ensures k in txns && (PairMatches(d, sidecar, d.journals[k], true) <==> IsDesired(d.files, sidecar, txns[k]))
    ensures PairMatches(d, sidecar, d.journals[k], false) <==> IsOld(d.files, sidecar, txns[k])
  {
    Intact(d, sidecar, txns, k);
  }

  /** Publishing the old or the desired content of one file of an unresolved
      transaction keeps the invariant. */
  lemma PublishKeepsInv(d: Disk, sidecar: string, txns: map<Key, Txn>, k: Key, path: string, content: Option<string>)
    requires Inv(d, sidecar, txns) && k in d.journals && d.journals[k].result.None? && k in txns
    requires || (path == txns[k].path && content in {txns[k].oldFragment, txns[k].newFragment})
             || (path == sidecar && content in {txns[k].oldSidecar, txns[k].newSidecar})
    ensures Inv(d.(files := Write(d.files, path, content)), sidecar, txns)
    ensures Changed(d.files, Write(d.files, path, content)) <= {txns[k].path, sidecar}
  {
    Intact(d, sidecar, txns, k);
    var d' := d.(files := Write(d.files, path, content));
    assert Consistent(d', sidecar, k, d.journals[k], txns[k]);
    assert Broken(d', sidecar, txns) == {};
  }

  /** Writing a journal that fits the disk keeps the invariant. */
  lemma JournalKeepsInv(d: Disk, sidecar: string, txns: map<Key, Txn>, k: Key, j: Journal)
    requires Inv(d, sidecar, txns) && d.journals.Keys <= {k}
    requires k in txns && Consistent(d, sidecar, k, j, txns[k])
    ensures Inv(d.(journals := d.journals[k := j]), sidecar, txns)
  {
    var d' := d.(journals := d.journals[k := j]);
    assert Consistent(d', sidecar, k, j, txns[k]);
    assert d'.journals.Keys == {k};
    assert Broken(d', sidecar, txns) == {};
    assert |d'.journals| == |d'.journals.Keys|;
  }

  /** Without journals any files and backups will do. */
  lemma NoJournalsInv(d: Disk, sidecar: string, txns: map<Key, Txn>)
    requires d.journals == map[]
    ensures Inv(d, sidecar, txns)
  {
    assert Broken(d, sidecar, txns) == {};
  }

  /** A resolved journal does not need its backups. */
  lemma DroppingBackupsKeepsInv(d: Disk, d': Disk, sidecar: string, txns: map<Key, Txn>, k: Key)
    requires Inv(d, sidecar, txns) && (k in d.journals ==> d.journals[k].result.Some?)
    requires d'.files == d.files && d'.journals == d.journals
    requires d'.fragmentBackups in {d.fragmentBackups, d.fragmentBackups - {k}}
    requires d'.sidecarBackups in {d.sidecarBackups, d.sidecarBackups - {k}}
    ensures Inv(d', sidecar, txns)
  {
    forall q | q in d.journals ensures q !in Broken(d', sidecar, txns) {
      Intact(d, sidecar, txns, q);
      assert q != k ==>
        Read(d'.fragmentBackups, q) == Read(d.fragmentBackups, q) &&
          Read(d'.sidecarBackups, q) == Read(d.sidecarBackups, q);
    }
  }

  lemma DroppingJournalKeepsInv(d: Disk, sidecar: string, txns: map<Key, Txn>, k: Key)
    requires Inv(d, sidecar, txns)
    ensures Inv(d.(journals := d.journals - {k}), sidecar, txns)
  {
    var d' := d.(journals := d.journals - {k});
    forall q | q in d'.journals ensures q !in Broken(d', sidecar, txns) {
      assert q !in Broken(d, sidecar, txns);
    }
    assert d'.journals.Keys == d.journals.Keys - {k};
    assert |d'.journals.Keys| <= |d.journals.Keys|;
  }

  /** The paths whose content differs. */
  ghost function Changed(files: map<string, string>, files': map<string, string>): set<string> {
    set p | p in files.Keys + files'.Keys && Read(files, p) != Read(files', p)
  }

  lemma ChangedTwice(a: map<string, string>, b: map<string, string>, c: map<string, string>, paths: set<string>)
    requires Changed(a, b) <= paths && Changed(b, c) <= paths
    ensures Changed(a, c) <= paths
  {
    assert Changed(a, c) <= Changed(a, b) + Changed(b, c);
  }

  lemma ChangedNothing(files: map<string, string>)
    ensures Changed(files, files) == {}
  {
  }

  /** A step of transaction k touches its own pair and journal only, and keeps
      what the journal is about. */
  ghost predicate OnlyPairChanged(d: Disk, d': Disk, sidecar: string, k: Key, path: string) {
    && Changed(d.files, d'.files) <= {path, sidecar}
    && d'.journals.Keys == d.journals.Keys
    && d'.fragmentBackups == d.fragmentBackups && d'.sidecarBackups == d.sidecarBackups
    && k in d'.journals && k in d.journals && Authority(d'.journals[k]) == Authority(d.journals[k])
  }

  /** Backups of an attempt that stopped before its journal was written still
      equal the files they were taken from. */
  predicate NoStrayBackups(d: Disk, sidecar: string, k: Key, path: string) {
    && (k in d.fragmentBackups ==> Read(d.files, path) == Some(d.fragmentBackups[k]))
    && (k in d.sidecarBackups ==> Read(d.files, sidecar) == Some(d.sidecarBackups[k]))
  }

  class Manager {
    const sidecar: string
    var disk: Disk
    ghost var txns: map<Key, Txn>
    /** The host files the service was last restarted and found active on. */
    ghost var verified: map<string, string>
    /** What every check of the service said, and how every transaction that has
        a result came to it. */
    ghost var checks: seq<bool>
    ghost var settlements: seq<Settlement>

    constructor (sidecar: string, d: Disk, ghost txns: map<Key, Txn>)
      ensures this.sidecar == sidecar && disk == d && this.txns == txns && settlements == []
    {
      this.sidecar := sidecar;
      disk := d;
      this.txns := txns;
      verified, checks, settlements := map[], [], [];
    }

    /** Journal k got a result in a settlement that is on the books, or its result
        is as it was and nothing was booked. */
    ghost predicate Booked(d: Disk, d': Disk, said: seq<bool>, booked: seq<Settlement>, k: Key,
                           ran: Option<TaskResult>)
      reads this
    {
      if settlements == booked then
        k in d'.journals && d'.journals[k].result.Some? ==>
          k in d.journals && d.journals[k].result == d'.journals[k].result
      else
        && |settlements| == |booked| + 1 && booked <= settlements && said <= checks
        && k in d.journals && d.journals[k].result.None? && k in d'.journals && k in txns
        && var x := settlements[|booked|];
        && x.ran == ran && x.phase == d.journals[k].phase && x.desired == IsDesired(d.files, sidecar, txns[k])
        && x.checks == checks[|said|..] && d'.journals[k].result == Some(x.result) && Justified(x)
    }

    ghost predicate Valid()
      reads this
    {
      Inv(disk, sidecar, txns)
    }

    method PublishFile(path: string, content: Option<string>) returns (r: Step<bool>)
      modifies this`disk
      ensures disk == old(disk) || disk == old(disk).(files := Write(old(disk).files, path, content))
      ensures r.Done? && r.value ==> disk == old(disk).(files := Write(old(disk).files, path, content))
    {
      var fate: Fate := *;
      if fate.Effective() {
        disk := disk.(files := Write(disk.files, path, content));
      }
      return if fate.Dies() then Crashed else Done(fate.Works?);
    }

    method WriteJournal(k: Key, j: Journal) returns (r: Step<bool>)
      modifies this`disk
      ensures disk == old(disk) || disk == old(disk).(journals := old(disk).journals[k := j])
      ensures r.Done? && r.value ==> disk == old(disk).(journals := old(disk).journals[k := j])
    {
      var fate: Fate := *;
      if fate.Effective() {
        disk := disk.(journals := disk.journals[k := j]);
      }
      return if fate.Dies() then Crashed else Done(fate.Works?);
    }

    /** writeBackup, for the fragment and the sidecar. */
    method WriteBackups(k: Key, fragment: Option<string>, sidecarText: string) returns (r: Step<bool>)
      modifies this`disk
      ensures disk.files == old(disk).files && disk.journals == old(disk).journals
      ensures disk.fragmentBackups == old(disk).fragmentBackups ||
        (fragment.Some? && disk.fragmentBackups == old(disk).fragmentBackups[k := fragment.value])
      ensures disk.sidecarBackups == old(disk).sidecarBackups ||
        disk.sidecarBackups == old(disk).sidecarBackups[k := sidecarText]
      ensures r.Done? && r.value ==> disk.sidecarBackups == old(disk).sidecarBackups[k := sidecarText]
      ensures r.Done? && r.value && fragment.Some? ==>
        disk.fragmentBackups == old(disk).fragmentBackups[k := fragment.value]
    {
      if fragment.Some? {
        var fate: Fate := *;
        if fate.Effective() {
          disk := disk.(fragmentBackups := disk.fragmentBackups[k := fragment.value]);
        }
        if !fate.Works? {
          return if fate.Dies() then Crashed else Done(false);
        }
      }
      var fate: Fate := *;
      if fate.Effective() {
        disk := disk.(sidecarBackups := disk.sidecarBackups[k := sidecarText]);
      }
      return if fate.Dies() then Crashed else Done(fate.Works?);
    }

    /** checkRestartVerify: three commands that change no modelled file. */
    method CheckRestartVerify() returns (r: Step<bool>)
      modifies this`verified, this`checks
      ensures r.Done? && r.value ==> verified == disk.files
      ensures checks == if r.Done? then old(checks) + [r.value] else old(checks)
    {
      r := *;
      if r.Done? {
        checks := checks + [r.value];
        if r.value {
          verified := disk.files;
        }
      }
    }

    /** Journal k is there and not terminal, with the same authority as j. */
    ghost predicate Unresolved(k: Key, j: Journal)
      reads this
    {
      && Valid() && k in disk.journals && k in txns
      && disk.journals[k].result.None? && Authority(j) == Authority(disk.journals[k])
    }

    /** Publish the old or the desired content of one file of transaction k. */
    method PublishOne(k: Key, j: Journal, path: string, content: Option<string>) returns (r: Step<bool>)
      requires Unresolved(k, j)
      requires || (path == txns[k].path && content in {txns[k].oldFragment, txns[k].newFragment})
               || (path == sidecar && content in {txns[k].oldSidecar, txns[k].newSidecar})
      modifies this`disk
      ensures Unresolved(k, j) && OnlyPairChanged(old(disk), disk, sidecar, k, j.fragmentPath)
      ensures disk.journals == old(disk).journals
      ensures r.Done? && r.value ==> disk.files == Write(old(disk).files, path, content)
    {
      Intact(disk, sidecar, txns, k);
      PublishKeepsInv(disk, sidecar, txns, k, path, content);
      ChangedNothing(disk.files);
      r := PublishFile(path, content);
    }

    /** Journal a state that fits the disk. */
    method Record(k: Key, j: Journal, next: Journal) returns (r: Step<bool>)
      requires Unresolved(k, j) && Authority(next) == Authority(j) && Consistent(disk, sidecar, k, next, txns[k])
      modifies this`disk
      ensures Valid() && OnlyPairChanged(old(disk), disk, sidecar, k, j.fragmentPath)
      ensures disk.files == old(disk).files && disk.journals[k] in {old(disk).journals[k], next}
      ensures r.Done? && r.value ==> disk.journals[k] == next
    {
      Intact(disk, sidecar, txns, k);
      JournalKeepsInv(disk, sidecar, txns, k, next);
      ChangedNothing(disk.files);
      r := WriteJournal(k, next);
    }

    /** The two publications of restoreOld: each backup, or its absence. */
    method RestorePair(k: Key, j: Journal) returns (r: Step<bool>)
      requires Unresolved(k, j)
      modifies this`disk
      ensures Unresolved(k, j) && OnlyPairChanged(old(disk), disk, sidecar, k, j.fragmentPath)
      ensures disk.journals == old(disk).journals
      ensures r.Done? && r.value ==> IsOld(disk.files, sidecar, txns[k])
    {
      Intact(disk, sidecar, txns, k);
      var fragment, sidecarText := Read(disk.fragmentBackups, k), Read(disk.sidecarBackups, k);
      if j.fragmentHad && (fragment.None? || DigestMaybe(fragment) != j.fragmentOld) {
        ChangedNothing(disk.files);
        return Done(false);
      }
      var ok :- PublishOne(k, j, j.fragmentPath, if j.fragmentHad then fragment else None);
      if !ok || (j.sidecarHad && (sidecarText.None? || DigestMaybe(sidecarText) != j.sidecarOld)) {
        return Done(false);
      }
      ghost var before := disk;
      r := PublishOne(k, j, sidecar, if j.sidecarHad then sidecarText else None);
      ChangedTwice(old(disk).files, before.files, disk.files, {j.fragmentPath, sidecar});
    }

    /** restoreOld: put both backups back, confirm the pair, journal it. */
    method RestoreOld(k: Key, j: Journal) returns (r: Step<Option<Journal>>)
      requires Unresolved(k, j)
      modifies this`disk
      ensures Unresolved(k, j) && OnlyPairChanged(old(disk), disk, sidecar, k, j.fragmentPath)
      ensures r.Done? && r.value.Some? ==>
        && r.value.value == j.(phase := OldRestored, result := None) == disk.journals[k]
        && IsOld(disk.files, sidecar, txns[k])
    {
      var ok :- RestorePair(k, j);
      if !ok || !PairMatches(disk, sidecar, j, false) {
        return Done(None);
      }
      Intact(disk, sidecar, txns, k);
      var restored := j.(phase := OldRestored, result := None);
      ghost var before := disk;
      var recorded := Record(k, j, restored);
      ChangedTwice(old(disk).files, before.files, disk.files, {j.fragmentPath, sidecar});
      ok :- recorded;
      return Done(if ok then Some(restored) else None);
    }

    /** rollback after a failed publication or check inside Apply. */
    method Rollback(k: Key, j: Journal) returns (r: Step<bool>)
      requires Unresolved(k, j)
      modifies this`disk, this`verified, this`checks
      ensures Unresolved(k, j) && OnlyPairChanged(old(disk), disk, sidecar, k, j.fragmentPath)
      ensures r.Done? ==> !r.value
    {
      var restored :- RestoreOld(k, j);
      if restored.Some? {
        var _ :- CheckRestartVerify();
      }
      return Done(false);
    }

    /** What one call of Apply may leave behind for lease k. */
    ghost predicate Attempted(d: Disk, k: Key, script: Digest, doc: Document)
      reads this
    {
      && Valid() && disk.journals.Keys <= {k}
      && Changed(d.files, disk.files) <= {doc.fragmentPath, sidecar}
      && disk.fragmentBackups.Keys <= d.fragmentBackups.Keys + {k}
      && disk.sidecarBackups.Keys <= d.sidecarBackups.Keys + {k}
      && (if k !in disk.journals then disk.files == d.files && NoStrayBackups(disk, sidecar, k, doc.fragmentPath)
          else
            && disk.journals[k].script == script && disk.journals[k].artifact == doc.artifact
            && disk.journals[k].fragmentPath == doc.fragmentPath)
    }

    /** The transaction that a document asks for on these files. */
    ghost predicate Asked(t: Txn, files: map<string, string>, doc: Document) {
      && DigestMaybe(Read(files, doc.fragmentPath)) == doc.previousFragment
      && t.path == doc.fragmentPath && t.oldFragment == Read(files, doc.fragmentPath)
      && t.oldSidecar == Read(files, sidecar)
      && t.newFragment == doc.fragment
      && t.oldSidecar.Some? && t.newSidecar == doc.merge(t.oldSidecar.value)
    }

    /** The document is about these files: the fragment it replaces is the one that
        is there, and its patch applies to the sidecar. */
    ghost predicate Applicable(files: map<string, string>, doc: Document) {
      && DigestMaybe(Read(files, doc.fragmentPath)) == doc.previousFragment
      && Read(files, sidecar).Some? && doc.merge(Read(files, sidecar).value).Some?
    }

    /** Apply, from the accepted document on. A retry that finds its journal
        resolves it instead of starting over. */
    method Apply(k: Key, script: Digest, doc: Document) returns (r: Step<bool>)
      requires script.Sha256? && doc.artifact.Sha256? && doc.fragmentPath != sidecar
      requires Attempted(disk, k, script, doc)
      modifies this
      ensures Attempted(old(disk), k, script, doc)
      ensures k in disk.journals && k !in old(disk).journals ==> k in txns && Asked(txns[k], old(disk).files, doc)
      ensures k in old(disk).journals ==> k in disk.journals && txns == old(txns)
      ensures k !in old(disk).journals && !Applicable(old(disk).files, doc) ==> disk == old(disk) && r == Done(false)
      ensures Booked(old(disk), disk, old(checks), old(settlements), k, None)
      ensures r.Done? && r.value && k in old(disk).journals ==>
        && disk.journals[k].result.Some? && k in txns
        && Settled(disk.files, sidecar, txns[k], disk.journals[k].result.value)
        && (if old(disk).journals[k].result.Some? then disk == old(disk) else verified == disk.files)
      ensures r.Done? && r.value && k !in old(disk).journals ==>
        k in disk.journals && disk.journals[k].phase == DesiredVerified && IsDesired(disk.files, sidecar, txns[k]) &&
          verified == disk.files
    {
      if k in disk.journals {
        var recovered :- RecoverOne(k, Some(script), None);
        return Done(recovered.Some?);
      }
      r := ApplyFresh(k, script, doc);
    }

    /** Apply without a journal: back up both files, journal the transaction,
        publish. */
    method ApplyFresh(k: Key, script: Digest, doc: Document) returns (r: Step<bool>)
      requires script.Sha256? && doc.artifact.Sha256? && doc.fragmentPath != sidecar
      requires Valid() && disk.journals == map[] && NoStrayBackups(disk, sidecar, k, doc.fragmentPath)
      modifies this
      ensures Attempted(old(disk), k, script, doc) && settlements == old(settlements)
      ensures k in disk.journals ==> k in txns && Asked(txns[k], old(disk).files, doc) && disk.journals[k].result.None?
      ensures !Applicable(old(disk).files, doc) ==> disk == old(disk) && r == Done(false)
      ensures r.Done? && r.value ==>
        k in disk.journals && disk.journals[k].phase == DesiredVerified && IsDesired(disk.files, sidecar, txns[k]) &&
          verified == disk.files
    {
      ChangedNothing(disk.files);
      var fragmentOld, sidecarOld := Read(disk.files, doc.fragmentPath), Read(disk.files, sidecar);
      var readable: bool := *;
      if !readable || DigestMaybe(fragmentOld) != doc.previousFragment || sidecarOld.None? {
        return Done(false);
      }
      var merged := doc.merge(sidecarOld.value);
      if merged.None? {
        return Done(false);
      }
      var backed := WriteBackups(k, fragmentOld, sidecarOld.value);
      NoJournalsInv(disk, sidecar, txns);
      var ok :- backed;
      if !ok {
        return Done(false);
      }
      var j := Journal(k, doc.fragmentPath, fragmentOld.Some?, DigestMaybe(fragmentOld), true, DigestMaybe(sidecarOld),
                       DigestMaybe(doc.fragment), DigestMaybe(merged), script, doc.artifact, Prepared, None);
      ghost var t := Txn(doc.fragmentPath, fragmentOld, sidecarOld, doc.fragment, merged);
      r := Transact(k, j, doc.fragment, merged, t);
    }

    /** The journaled part of Apply. */
    method Transact(k: Key, j: Journal, fragment: Option<string>, merged: Option<string>,
                    ghost t: Txn) returns (r: Step<bool>)
      requires disk.journals == map[] && Consistent(disk, sidecar, k, j, t) && j.phase == Prepared
      requires fragment == t.newFragment && merged == t.newSidecar
      modifies this
      ensures Valid() && disk.journals.Keys <= {k} && Changed(old(disk).files, disk.files) <= {j.fragmentPath, sidecar}
      ensures disk.fragmentBackups == old(disk).fragmentBackups && disk.sidecarBackups == old(disk).sidecarBackups
      ensures k !in disk.journals ==> disk.files == old(disk).files
      ensures k in disk.journals ==> Authority(disk.journals[k]) == j && k in txns && txns[k] == t
      ensures (k in disk.journals ==> disk.journals[k].result.None?) && settlements == old(settlements)
      ensures r.Done? && r.value ==>
        k in disk.journals && disk.journals[k].phase == DesiredVerified && IsDesired(disk.files, sidecar, txns[k]) &&
          verified == disk.files
    {
      ChangedNothing(disk.files);
      txns := txns[k := t];
      NoJournalsInv(disk, sidecar, txns);
      JournalKeepsInv(disk, sidecar, txns, k, j);
      var ok :- WriteJournal(k, j);
      if !ok {
        return Done(false);
      }
      r := Publish(k, j, fragment, merged);
    }

    /** One publication of Apply: replace a file and journal the next phase.
        A failed replacement rolls the pair back; a failed journal write stops. */
    method Advance(k: Key, j: Journal, path: string, content: Option<string>, next: Phase)
      returns (r: Step<Option<Journal>>)
      requires Unresolved(k, j) && j == disk.journals[k] && !Terminal(next)
      requires || (path == txns[k].path && content == txns[k].newFragment)
               || (path == sidecar && content == txns[k].newSidecar)
      modifies this`disk, this`verified, this`checks
      ensures Unresolved(k, j) && OnlyPairChanged(old(disk), disk, sidecar, k, j.fragmentPath)
      ensures r.Done? && r.value.Some? ==>
        && r.value.value == j.(phase := next) == disk.journals[k]
        && disk.files == Write(old(disk).files, path, content)
    {
      var ok :- PublishOne(k, j, path, content);
      ghost var before := disk;
      if !ok {
        var rolled := Rollback(k, j);
        ChangedTwice(old(disk).files, before.files, disk.files, {j.fragmentPath, sidecar});
        var _ :- rolled;
        return Done(None);
      }
      Intact(disk, sidecar, txns, k);
      var recorded := Record(k, j, j.(phase := next));
      ok :- recorded;
      return Done(if ok then Some(j.(phase := next)) else None);
    }

    /** The publishing half of Apply, after its journal is written. */
    method Publish(k: Key, prepared: Journal, fragment: Option<string>, merged: Option<string>) returns (r: Step<bool>)
      requires Unresolved(k, prepared) && disk.journals[k] == prepared && prepared.phase == Prepared
      requires fragment == txns[k].newFragment && merged == txns[k].newSidecar
      modifies this`disk, this`verified, this`checks
      ensures Unresolved(k, prepared) && OnlyPairChanged(old(disk), disk, sidecar, k, prepared.fragmentPath)
      ensures r.Done? && r.value ==>
        disk.journals[k].phase == DesiredVerified && IsDesired(disk.files, sidecar, txns[k]) && verified == disk.files
    {
      Intact(disk, sidecar, txns, k);
      var paths := {prepared.fragmentPath, sidecar};
      var j :- Advance(k, prepared, prepared.fragmentPath, fragment, FragmentPublished);
      if j.None? {
        return Done(false);
      }
      ghost var before := disk;
      var advanced := Advance(k, j.value, sidecar, merged, PairPublished);
      ChangedTwice(old(disk).files, before.files, disk.files, paths);
      j :- advanced;
      if j.None? {
        return Done(false);
      }
      before := disk;
      r := VerifyPublished(k, j.value);
      ChangedTwice(old(disk).files, before.files, disk.files, paths);
    }

    /** The end of Apply: the pair is in place, so check the service on it. */
    method VerifyPublished(k: Key, j: Journal) returns (r: Step<bool>)
      requires Unresolved(k, j) && disk.journals[k] == j && j.result.None? && IsDesired(disk.files, sidecar, txns[k])
      modifies this`disk, this`verified, this`checks
      ensures Unresolved(k, j) && OnlyPairChanged(old(disk), disk, sidecar, k, j.fragmentPath)
      ensures r.Done? && r.value ==>
        disk.journals[k].phase == DesiredVerified && IsDesired(disk.files, sidecar, txns[k]) && verified == disk.files
    {
      ChangedNothing(disk.files);
      var ok :- CheckRestartVerify();
      if !ok {
        r := Rollback(k, j);
        return;
      }
      Intact(disk, sidecar, txns, k);
      r := Record(k, j, j.(phase := DesiredVerified));
    }

    /** Journal the result of transaction k, and book how it came to it. */
    method Conclude(k: Key, j: Journal, next: Journal, ghost x: Settlement) returns (r: Step<bool>)
      requires Unresolved(k, j) && Authority(next) == Authority(j) && Consistent(disk, sidecar, k, next, txns[k])
      requires next.result == Some(x.result)
      modifies this`disk, this`settlements
      ensures Valid() && OnlyPairChanged(old(disk), disk, sidecar, k, j.fragmentPath)
      ensures disk.files == old(disk).files && disk.journals[k].result in {None, Some(x.result)}
      ensures settlements == old(settlements) + (if disk.journals[k].result.Some? then [x] else [])
      ensures r.Done? && r.value ==> disk.journals[k].result == Some(x.result)
    {
      r := Record(k, j, next);
      if disk.journals[k].result.Some? {
        settlements := settlements + [x];
      }
    }

    /** Restore the old pair and journal `result`, made a failure, as terminal. */
    method SettleOld(k: Key, j: Journal, result: TaskResult, ghost x: Settlement) returns (r: Step<Option<TaskResult>>)
      requires Unresolved(k, j) && x.result == result
      requires result.key == k && result.finishedAt != 0 && result.exitCode != 0
      modifies this`disk, this`verified, this`checks, this`settlements
      ensures Valid() && OnlyPairChanged(old(disk), disk, sidecar, k, j.fragmentPath)
      ensures disk.journals[k].result in {None, Some(result)}
      ensures settlements == old(settlements) + (if disk.journals[k].result.Some? then [x] else [])
      ensures disk.journals[k].result.Some? ==> checks == old(checks) + [true]
      ensures old(checks) <= checks && |checks| <= |old(checks)| + 1
      ensures r.Done? && r.value.Some? ==> r.value == Some(result) == disk.journals[k].result && verified == disk.files
    {
      var restored :- RestoreOld(k, j);
      if restored.None? {
        return Done(None);
      }
      var ok :- CheckRestartVerify();
      if !ok {
        return Done(None);
      }
      Intact(disk, sidecar, txns, k);
      var recorded := Conclude(k, j, restored.value.(phase := TerminalOld, result := Some(result)), x);
      ok :- recorded;
      return Done(if ok then Some(result) else None);
    }

    /** Journal success for the desired pair as it stands. */
    method SettleNew(k: Key, j: Journal, result: TaskResult, ghost x: Settlement) returns (r: Step<Option<TaskResult>>)
      requires Unresolved(k, j) && disk.journals[k] == j && x.result == result
      requires IsDesired(disk.files, sidecar, txns[k])
      requires result.key == k && result.finishedAt != 0 && result.exitCode == 0 && result.error == NoProblem
      modifies this`disk, this`settlements
      ensures Valid() && OnlyPairChanged(old(disk), disk, sidecar, k, j.fragmentPath) && disk.files == old(disk).files
      ensures disk.journals[k].result in {None, Some(result)}
      ensures settlements == old(settlements) + (if disk.journals[k].result.Some? then [x] else [])
      ensures r.Done? && r.value.Some? ==> r.value == Some(result) == disk.journals[k].result
    {
      Intact(disk, sidecar, txns, k);
      var recorded := Conclude(k, j, j.(phase := TerminalDesired, result := Some(result)), x);
      var ok :- recorded;
      return Done(if ok then Some(result) else None);
    }

    /** The decision ResolveAfterRun and recoverOne share. `success` is the
        result to journal when the desired pair is present and verified, and
        `failed` or `unverified` when the old pair has to come back. */
    method Settle(k: Key, wanted: bool, success: TaskResult, unverified: TaskResult, failed: TaskResult,
                  ghost ran: Option<TaskResult>) returns (r: Step<Option<TaskResult>>)
      requires Valid() && k in disk.journals && disk.journals[k].result.None? && k in txns
      requires success.key == k && success.finishedAt != 0 && success.exitCode == 0 && success.error == NoProblem
      requires unverified.key == k && unverified.finishedAt != 0 && unverified.exitCode != 0
      requires failed.key == k && failed.finishedAt != 0 && failed.exitCode != 0
      requires var x :=
        Settlement(ran, disk.journals[k].phase, IsDesired(disk.files, sidecar, txns[k]), [true], failed);
               if wanted then
                 x.desired ==>
                   Justified(x.(result := success)) && Justified(x.(checks := [false, true], result := unverified))
               else Justified(x)
      modifies this`disk, this`verified, this`checks, this`settlements
      ensures Valid() && OnlyPairChanged(old(disk), disk, sidecar, k, old(disk).journals[k].fragmentPath)
      ensures Booked(old(disk), disk, old(checks), old(settlements), k, ran)
      ensures Stays(wanted, old(disk), old(checks))
      ensures r.Done? && r.value.Some? ==> disk.journals[k].result == r.value && verified == disk.files
    {
      Intact(disk, sidecar, txns, k);
      ChangedNothing(disk.files);
      if wanted {
        PairMatchesMeans(disk, sidecar, txns, k);
        if !PairMatches(disk, sidecar, disk.journals[k], true) {
          return Done(None);
        }
        r := SettleDesired(k, success, unverified, ran);
      } else {
        var j := disk.journals[k];
        r := SettleOld(k, j, failed,
                       Settlement(ran, j.phase, IsDesired(disk.files, sidecar, txns[k]), [true], failed));
      }
    }

    /** The desired pair is on disk and wanted: the service decides. */
    method SettleDesired(k: Key, success: TaskResult, unverified: TaskResult, ghost ran: Option<TaskResult>)
      returns (r: Step<Option<TaskResult>>)
      requires Valid() && k in disk.journals && disk.journals[k].result.None? && k in txns
      requires IsDesired(disk.files, sidecar, txns[k])
      requires success.key == k && success.finishedAt != 0 && success.exitCode == 0 && success.error == NoProblem
      requires unverified.key == k && unverified.finishedAt != 0 && unverified.exitCode != 0
      requires Justified(Settlement(ran, disk.journals[k].phase, true, [true], success))
      requires Justified(Settlement(ran, disk.journals[k].phase, true, [false, true], unverified))
      modifies this`disk, this`verified, this`checks, this`settlements
      ensures Valid() && OnlyPairChanged(old(disk), disk, sidecar, k, old(disk).journals[k].fragmentPath)
      ensures Booked(old(disk), disk, old(checks), old(settlements), k, ran)
      ensures Stays(true, old(disk), old(checks))
      ensures r.Done? && r.value.Some? ==> disk.journals[k].result == r.value && verified == disk.files
    {
      Intact(disk, sidecar, txns, k);
      ChangedNothing(disk.files);
      var j := disk.journals[k];
      var active :- CheckRestartVerify();
      if active {
        r := SettleNew(k, j, success, Settlement(ran, j.phase, true, [true], success));
      } else {
        r := SettleOld(k, j, unverified, Settlement(ran, j.phase, true, [false, true], unverified));
      }
    }

    /** A pair that is wanted is left alone unless the service is found inactive on
        it; it is an error if it is not there. */
    ghost predicate Stays(wanted: bool, d: Disk, said: seq<bool>)
      reads this
    {
      wanted && !(said < checks && !checks[|said|]) ==> disk.files == d.files
    }

    /** ResolveAfterRun: turn what the helper left behind into one terminal
        result. Without a journal only a failed run has a result. */
    method ResolveAfterRun(k: Key, ran: TaskResult) returns (r: Step<Option<TaskResult>>)
      requires Valid() && ran.key == k
      modifies this`disk, this`verified, this`checks, this`settlements
      ensures Valid()
      ensures k !in old(disk).journals ==> disk == old(disk)
      ensures k in old(disk).journals ==>
        && OnlyPairChanged(old(disk), disk, sidecar, k, old(disk).journals[k].fragmentPath)
        && (old(disk).journals[k].result.Some? ==> disk == old(disk))
      ensures Booked(old(disk), disk, old(checks), old(settlements), k, Some(ran))
      ensures k in old(disk).journals && old(disk).journals[k].result.None? ==>
        Stays(Clean(ran) && old(disk).journals[k].phase == DesiredVerified, old(disk), old(checks))
      ensures r.Done? && r.value.Some? ==>
        && r.value.value.key == k && r.value.value.finishedAt != 0
        && (if k in disk.journals then
              && disk.journals[k].result == r.value && k in txns && Settled(disk.files, sidecar, txns[k], r.value.value)
              && (old(disk).journals[k].result.None? ==> verified == disk.files)
            else Stamped(ran, r.value.value) && !Clean(ran))
    {
      var now := Clock();
      var result := if ran.finishedAt == 0 then ran.(finishedAt := now) else ran;
      var readable: bool := *;
      if !readable {
        ChangedNothing(disk.files);
        return Done(None);
      }
      if k !in disk.journals {
        return Done(if ran.exitCode != 0 || ran.error != NoProblem then Some(result) else None);
      }
      Intact(disk, sidecar, txns, k);
      ChangedNothing(disk.files);
      var j := disk.journals[k];
      if j.result.Some? {
        return Done(j.result);
      }
      r := SettleRun(k, ran, result);
      Intact(disk, sidecar, txns, k);
    }

    /** ResolveAfterRun with a journal that has no result yet. */
    method SettleRun(k: Key, ghost ran: TaskResult, result: TaskResult) returns (r: Step<Option<TaskResult>>)
      requires Valid() && k in disk.journals && disk.journals[k].result.None?
      requires Stamped(ran, result) && result.key == k && result.finishedAt != 0
      modifies this`disk, this`verified, this`checks, this`settlements
      ensures Valid() && OnlyPairChanged(old(disk), disk, sidecar, k, old(disk).journals[k].fragmentPath)
      ensures Booked(old(disk), disk, old(checks), old(settlements), k, Some(ran))
      ensures Stays(Clean(ran) && old(disk).journals[k].phase == DesiredVerified, old(disk), old(checks))
      ensures r.Done? && r.value.Some? ==> disk.journals[k].result == r.value && verified == disk.files
    {
      Intact(disk, sidecar, txns, k);
      var failure := if result.exitCode == 0 then result.(exitCode := -1) else result;
      var unverified := result.(exitCode := -1, error := Unverified);
      var failed := if failure.error == NoProblem then failure.(error := PairRestored) else failure;
      var success := result.(exitCode := 0, error := NoProblem);
      var clean := result.exitCode == 0 && result.error == NoProblem;
      r := Settle(k, clean && disk.journals[k].phase == DesiredVerified, success, unverified, failed, Some(ran));
    }

    /** recoverOne up to its terminal result. `authority` is the journal as the
        caller captured it. Running it again after a crash returns the result
        already journaled. */
    method RecoverOne(k: Key, script: Option<Digest>, authority: Option<Journal>) returns (r: Step<Option<TaskResult>>)
      requires Valid() && k in disk.journals
      modifies this`disk, this`verified, this`checks, this`settlements
      ensures Valid() && OnlyPairChanged(old(disk), disk, sidecar, k, old(disk).journals[k].fragmentPath)
      ensures old(disk).journals[k].result.Some? ==> disk == old(disk)
      ensures script.Some? && script.value != old(disk).journals[k].script ==> disk == old(disk) && r == Done(None)
      ensures authority.Some? && authority.value != old(disk).journals[k] ==> disk == old(disk) && r == Done(None)
      ensures Booked(old(disk), disk, old(checks), old(settlements), k, None)
      ensures k in txns && (old(disk).journals[k].result.None? ==>
        Stays(old(disk).journals[k].phase == DesiredVerified && IsDesired(old(disk).files, sidecar, txns[k]),
              old(disk), old(checks)))
      ensures r.Done? && r.value.Some? ==>
        && disk.journals[k].result == r.value
        && Settled(disk.files, sidecar, txns[k], r.value.value)
        && (if old(disk).journals[k].result.Some? then r.value == old(disk).journals[k].result
            else verified == disk.files)
    {
      Intact(disk, sidecar, txns, k);
      ChangedNothing(disk.files);
      var j := disk.journals[k];
      var readable: bool := *;
      if !readable || !ValidJournal(disk, k, j) || (script.Some? && j.script != script.value) ||
        (authority.Some? && j != authority.value) {
        return Done(None);
      }
      if j.result.Some? {
        return Done(j.result);
      }
      PairMatchesMeans(disk, sidecar, txns, k);
      var now := Clock();
      var failed := TaskResult(k, -1, Interrupted, now, "");
      var unverified := failed.(error := Unverified);
      var success := failed.(exitCode := 0, error := NoProblem);
      var keep := j.phase == DesiredVerified && PairMatches(disk, sidecar, j, true);
      r := Settle(k, keep, success, unverified, failed, None);
      Intact(disk, sidecar, txns, k);
    }

    /** Cleanup: backups first, the journal last, then a directory sync. */
    method Cleanup(k: Key) returns (r: Step<bool>)
      requires Valid() && (k in disk.journals ==> disk.journals[k].result.Some?)
      modifies this`disk
      ensures Valid() && disk.files == old(disk).files
      ensures disk.journals == old(disk).journals || disk.journals == old(disk).journals - {k}
      ensures disk.fragmentBackups.Keys <= old(disk).fragmentBackups.Keys
      ensures disk.sidecarBackups.Keys <= old(disk).sidecarBackups.Keys
      ensures r.Done? && r.value ==>
        disk.journals == old(disk).journals - {k} && k !in disk.fragmentBackups && k !in disk.sidecarBackups
    {
      var backups :- RemoveBackups(k);
      if !backups {
        return Done(false);
      }
      r := RemoveJournal(k);
    }

    /** The journal, last of Cleanup. */
    method RemoveJournal(k: Key) returns (r: Step<bool>)
      requires Valid()
      modifies this`disk
      ensures Valid() && (disk == old(disk) || disk == old(disk).(journals := old(disk).journals - {k}))
      ensures r.Done? && r.value ==> disk.journals == old(disk).journals - {k}
    {
      DroppingJournalKeepsInv(disk, sidecar, txns, k);
      var fate: Fate := *;
      if fate.Effective() {
        disk := disk.(journals := disk.journals - {k});
      }
      if !fate.Works? {
        return if fate.Dies() then Crashed else Done(false);
      }
      // The directory sync that ends Cleanup may fail or be cut short.
      r := *;
    }

    /** The two backups of Cleanup, in order. */
    method RemoveBackups(k: Key) returns (r: Step<bool>)
      requires Valid() && (k in disk.journals ==> disk.journals[k].result.Some?)
      modifies this`disk
      ensures Valid() && disk.files == old(disk).files && disk.journals == old(disk).journals
      ensures disk.fragmentBackups in {old(disk).fragmentBackups, old(disk).fragmentBackups - {k}}
      ensures disk.sidecarBackups in {old(disk).sidecarBackups, old(disk).sidecarBackups - {k}}
      ensures r.Done? && r.value ==> k !in disk.fragmentBackups && k !in disk.sidecarBackups
    {
      var fate: Fate, fate': Fate := *, *;
      if fate.Effective() {
        disk := disk.(fragmentBackups := disk.fragmentBackups - {k});
      }
      if fate.Works? && fate'.Effective() {
        disk := disk.(sidecarBackups := disk.sidecarBackups - {k});
      }
      DroppingBackupsKeepsInv(old(disk), disk, sidecar, txns, k);
      return if fate.Dies() || (fate.Works? && fate'.Dies()) then Crashed else Done(fate.Works? && fate'.Works?);
    }

    /** Snapshot: every journal, each validated, or nothing. */
    method Snapshot() returns (r: Option<map<Key, Journal>>)
      ensures r.Some? ==> r.value == disk.journals && forall k :: k in r.value ==> ValidJournal(disk, k, r.value[k])
    {
      var readable: bool := *;
      if !readable || exists k :: k in disk.journals && !ValidJournal(disk, k, disk.journals[k]) {
        return None;
      }
      return Some(disk.journals);
    }
  }
}
