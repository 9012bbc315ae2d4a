/** Lines on their way from a log file to the server, and the checkpoint that a
    restart goes on from (cmd/lattice-agent/logtail.go). */
module LogShip {
  import opened Common
  import opened LogTail

  const MAX_PENDING := 50000

  /** Of these lines the newest are still pending; each of the others arrived or
      was lost, as often as it occurs. */
  ghost predicate Settled<T>(lines: seq<T>, pending: seq<T>, arrived: multiset<T>, lost: multiset<T>) {
    && |pending| <= |lines| && pending == lines[|lines| - |pending|..]
    && multiset(lines[..|lines| - |pending|]) == arrived + lost
  }

  /** Polled lines join the queue. */
  lemma PolledWait<T>(lines: seq<T>, got: seq<T>, pending: seq<T>, arrived: multiset<T>, lost: multiset<T>)
    requires Settled(lines, pending, arrived, lost)
    ensures Settled(lines + got, pending + got, arrived, lost)
  {
    var k := |lines| - |pending|;
    assert (lines + got)[..k] == lines[..k] && (lines + got)[k..] == pending + got;
  }

  /** The oldest n pending lines arrive together, or are lost together. */
  lemma SettledOff<T>(lines: seq<T>, pending: seq<T>, arrived: multiset<T>, lost: multiset<T>, n: nat)
    requires Settled(lines, pending, arrived, lost) && n <= |pending|
    ensures Settled(lines, pending[n..], arrived + multiset(pending[..n]), lost)
    ensures Settled(lines, pending[n..], arrived, lost + multiset(pending[..n])) && |multiset(pending[..n])| == n
  {
    var k := |lines| - |pending|;
    assert lines[..k + n] == lines[..k] + pending[..n] && lines[k + n..] == pending[n..];
    Regroup(arrived, lost, multiset(pending[..n]));
  }

  lemma Regroup<T>(a: multiset<T>, b: multiset<T>, c: multiset<T>)
    ensures (a + b) + c == (a + c) + b == a + (b + c)
  {
  }

  lemma SettledBoth<T>(a: seq<T>, b: seq<T>, arrived: multiset<T>, lost: multiset<T>, arrived': multiset<T>,
                       lost': multiset<T>)
    requires Settled(a, [], arrived, lost) && Settled(b, [], arrived', lost')
    ensures Settled(a + b, [], arrived + arrived', lost + lost')
  {
    assert a[..|a|] == a && b[..|b|] == b && (a + b)[..|a + b|] == a + b;
    assert multiset(a + b) == multiset(a) + multiset(b);
    assert (arrived + lost) + (arrived' + lost') == (arrived + arrived') + (lost + lost');
  }

  lemma Grows<T>(a: multiset<T>, b: multiset<T>, more: multiset<T>)
    ensures (a <= b ==> a <= b + more && a + more <= b + more) && b <= b + more
  {
  }

  lemma ShownBoth(a: seq<Bytes>, b: seq<Bytes>, limit: nat)
    ensures AllShown(a + b, limit) == AllShown(a, limit) + AllShown(b, limit)
  {
  }

  /** A stretch of the file: where it begins and ends, the pieces read from it,
      and which of their lines arrived or were lost. */
  datatype Stretch = Stretch(from: nat, to: nat, pieces: seq<Bytes>, arrived: multiset<Bytes>, lost: multiset<Bytes>)

  /** Every line of the stretch arrived or was lost, but for those pending. */
  ghost predicate Accounts(content: Bytes, t: Stretch, pending: seq<Bytes>, limit: nat, maxRead: nat) {
    && Covers(content, t.from, t.to, t.pieces) && Pieces(t.pieces, maxRead)
    && Settled(AllShown(t.pieces, limit), pending, t.arrived, t.lost)
  }

  function Empty(at: nat): Stretch {
    Stretch(at, at, [], multiset{}, multiset{})
  }

  function Both(past: Stretch, run: Stretch): Stretch {
    Stretch(past.from, run.to, past.pieces + run.pieces, past.arrived + run.arrived, past.lost + run.lost)
  }

  /** What holds between the stretch before the checkpoint, the one since, the
      queue and the server. */
  datatype Law = PastAccounted | RunAccounted | RunFollows | ArrivedApart | LossesCounted

  ghost predicate Kept(law: Law, content: Bytes, past: Stretch, run: Stretch, q: Queue, limit: nat, maxRead: nat) {
    match law
    case PastAccounted => Accounts(content, past, [], limit, maxRead)
    case RunAccounted => Accounts(content, run, q.pending, limit, maxRead)
    case RunFollows => past.to == run.from
    case ArrivedApart => past.arrived + run.arrived <= q.received
    case LossesCounted => |past.lost| + |run.lost| <= q.dropped + q.told
  }

  /** Lines and drops still to be sent, and what reached the server. */
  datatype Queue = Queue(pending: seq<Bytes>, dropped: nat, received: multiset<Bytes>, told: nat)

  ghost function Broken(content: Bytes, past: Stretch, run: Stretch, q: Queue, limit: nat, maxRead: nat): set<Law> {
    set law: Law | !Kept(law, content, past, run, q, limit, maxRead)
  }

  ghost predicate Good(content: Bytes, past: Stretch, run: Stretch, q: Queue, limit: nat, maxRead: nat) {
    Broken(content, past, run, q, limit, maxRead) == {}
  }

  lemma GoodMeans(content: Bytes, past: Stretch, run: Stretch, q: Queue, limit: nat, maxRead: nat)
    ensures Good(content, past, run, q, limit, maxRead) <==>
      && Accounts(content, past, [], limit, maxRead) && Accounts(content, run, q.pending, limit, maxRead)
      && past.to == run.from && past.arrived + run.arrived <= q.received
      && |past.lost| + |run.lost| <= q.dropped + q.told
  {
    var broken := Broken(content, past, run, q, limit, maxRead);
    assert PastAccounted in broken <==> !Kept(PastAccounted, content, past, run, q, limit, maxRead);
    assert RunAccounted in broken <==> !Kept(RunAccounted, content, past, run, q, limit, maxRead);
    assert RunFollows in broken <==> !Kept(RunFollows, content, past, run, q, limit, maxRead);
    assert ArrivedApart in broken <==> !Kept(ArrivedApart, content, past, run, q, limit, maxRead);
    assert LossesCounted in broken <==> !Kept(LossesCounted, content, past, run, q, limit, maxRead);
  }

  /** The promise at a checkpoint: every line before it was received, as often
      as it occurs, or is in a drop count that reached the server. */
  ghost predicate Accounted(content: Bytes, past: Stretch, received: multiset<Bytes>, told: nat, limit: nat,
                            maxRead: nat) {
    Good(content, past, Empty(past.to), Queue([], 0, received, told), limit, maxRead)
  }

  lemma AccountedMeans(content: Bytes, past: Stretch, received: multiset<Bytes>, told: nat, limit: nat, maxRead: nat)
    ensures Accounted(content, past, received, told, limit, maxRead) <==>
      Accounts(content, past, [], limit, maxRead) && past.arrived <= received && |past.lost| <= told
  {
    GoodMeans(content, past, Empty(past.to), Queue([], 0, received, told), limit, maxRead);
    assert past.arrived + multiset{} == past.arrived;
    if Accounts(content, past, [], limit, maxRead) {
      Nowhere(content, past.to);
      assert AllShown([], limit) == [];
    }
  }

  /** Where lines fit one read, the accounted pieces are exactly the lines. */
  lemma AccountedLines(content: Bytes, past: Stretch, received: multiset<Bytes>, told: nat, limit: nat, maxRead: nat)
    requires Accounted(content, past, received, told, limit, maxRead)
    ensures past.from <= past.to <= |content|
    ensures Fits(content[past.from..past.to], maxRead) ==>
      var lines := AllShown(Split(content[past.from..past.to]), limit);
      multiset(lines) == past.arrived + past.lost && past.arrived <= received && |past.lost| <= told
  {
    AccountedMeans(content, past, received, told, limit, maxRead);
    var lines := AllShown(past.pieces, limit);
    assert lines[..|lines|] == lines;
    if Fits(content[past.from..past.to], maxRead) {
      ReadsAreLines(past.pieces, maxRead);
    }
  }

  lemma EmptyAccounted(content: Bytes, at: nat, received: multiset<Bytes>, told: nat, limit: nat, maxRead: nat)
    requires at <= |content|
    ensures Accounted(content, Empty(at), received, told, limit, maxRead)
  {
    AccountedMeans(content, Empty(at), received, told, limit, maxRead);
    Nowhere(content, at);
  }

  lemma GrownGood(content: Bytes, content': Bytes, past: Stretch, run: Stretch, q: Queue, limit: nat, maxRead: nat)
    requires Good(content, past, run, q, limit, maxRead) && content <= content'
    ensures Good(content', past, run, q, limit, maxRead)
  {
    GoodMeans(content, past, run, q, limit, maxRead);
    GoodMeans(content', past, run, q, limit, maxRead);
    GrowingCovers(content, content', past.from, past.to, past.pieces);
    GrowingCovers(content, content', run.from, run.to, run.pieces);
  }

  /** A poll went on from where the run was. */
  lemma PolledGood(content: Bytes, past: Stretch, run: Stretch, q: Queue, limit: nat, maxRead: nat, got: seq<Bytes>,
                   to: nat)
    requires Good(content, past, run, q, limit, maxRead)
    requires Covers(content, run.from, to, run.pieces + got) && Pieces(got, maxRead)
    ensures Good(content, past, run.(to := to, pieces := run.pieces + got),
                 q.(pending := q.pending + AllShown(got, limit)), limit, maxRead)
  {
    GoodMeans(content, past, run, q, limit, maxRead);
    GoodMeans(content, past, run.(to := to, pieces := run.pieces + got),
              q.(pending := q.pending + AllShown(got, limit)), limit, maxRead);
    PolledWait(AllShown(run.pieces, limit), AllShown(got, limit), q.pending, run.arrived, run.lost);
    ShownBoth(run.pieces, got, limit);
  }

  /** The oldest pending lines are given up and counted. */
  lemma DroppedGood(content: Bytes, past: Stretch, run: Stretch, q: Queue, limit: nat, maxRead: nat, n: nat)
    requires Good(content, past, run, q, limit, maxRead) && n <= |q.pending|
    ensures Good(content, past, run.(lost := run.lost + multiset(q.pending[..n])),
                 q.(pending := q.pending[n..], dropped := q.dropped + n), limit, maxRead)
  {
    GoodMeans(content, past, run, q, limit, maxRead);
    GoodMeans(content, past, run.(lost := run.lost + multiset(q.pending[..n])),
              q.(pending := q.pending[n..], dropped := q.dropped + n), limit, maxRead);
    SettledOff(AllShown(run.pieces, limit), q.pending, run.arrived, run.lost, n);
  }

  /** A batch arrived with the drops so far, whether its answer came or not. */
  lemma ArrivedGood(content: Bytes, past: Stretch, run: Stretch, q: Queue, limit: nat, maxRead: nat, n: nat)
    requires Good(content, past, run, q, limit, maxRead) && n <= |q.pending|
    ensures var q' := q.(received := q.received + multiset(q.pending[..n]), told := q.told + q.dropped);
            && Good(content, past, run, q', limit, maxRead)
            && Good(content, past, run.(arrived := run.arrived + multiset(q.pending[..n])),
                    q'.(pending := q.pending[n..], dropped := 0), limit, maxRead)
  {
    var batch := multiset(q.pending[..n]);
    var q' := q.(received := q.received + batch, told := q.told + q.dropped);
    GoodMeans(content, past, run, q, limit, maxRead);
    GoodMeans(content, past, run, q', limit, maxRead);
    GoodMeans(content, past, run.(arrived := run.arrived + batch), q'.(pending := q.pending[n..], dropped := 0), limit,
              maxRead);
    SettledOff(AllShown(run.pieces, limit), q.pending, run.arrived, run.lost, n);
    Grows(past.arrived + run.arrived, q.received, batch);
    Regroup(past.arrived, run.arrived, batch);
  }

  /** With nothing left to send, the checkpoint may move to the end of the run. */
  lemma SavedGood(content: Bytes, past: Stretch, run: Stretch, q: Queue, limit: nat, maxRead: nat)
    requires Good(content, past, run, q, limit, maxRead) && q.pending == [] && q.dropped == 0
    ensures Accounted(content, Both(past, run), q.received, q.told, limit, maxRead)
  {
    GoodMeans(content, past, run, q, limit, maxRead);
    AccountedMeans(content, Both(past, run), q.received, q.told, limit, maxRead);
    CoversBoth(content, past.from, past.to, run.to, past.pieces, run.pieces);
    ShownBoth(past.pieces, run.pieces, limit);
    SettledBoth(AllShown(past.pieces, limit), AllShown(run.pieces, limit), past.arrived, past.lost, run.arrived,
                run.lost);
  }

  /** What reached the server, which the agent cannot see. */
  class Server {
    ghost var received: multiset<Bytes>
    ghost var toldDropped: nat
    /** Whether each batch sent was confirmed. */
    ghost var answers: seq<bool>

    /** shipLogBatch: what an answer of 200 confirms may also have arrived
        without one. */
    method Ship(lines: seq<Bytes>, dropped: nat) returns (ok: bool)
      modifies this
      ensures || (received == old(received) + multiset(lines) && toldDropped == old(toldDropped) + dropped)
              || (!ok && received == old(received) && toldDropped == old(toldDropped))
      ensures answers == old(answers) + [ok]
    {
      ok := *;
      answers := answers + [ok];
      ghost var arrives: bool := *;
      if ok || arrives {
        received := received + multiset(lines);
        toldDropped := toldDropped + dropped;
      }
    }
  }

  datatype Checkpoint = Checkpoint(offset: nat, incarnation: int)

  /** What survives a restart, with what happened to all lines before it. */
  class Disk {
    var saved: Option<Checkpoint>
    ghost var past: Stretch
    /** How often a checkpoint was to be written. */
    ghost var attempts: nat

    constructor ()
      ensures saved == None
    {
      saved, past, attempts := None, Empty(0), 0;
    }

    /** Every line from the origin to the checkpoint is accounted for. */
    ghost predicate Valid(content: Bytes, server: Server, limit: nat, maxRead: nat)
      reads this, server
    {
      saved.Some? ==>
        saved.value.offset == past.to && Accounted(content, past, server.received, server.toldDropped, limit, maxRead)
    }
  }

  /** One run of the tail loop over a file that only grows. */
  class Shipper {
    const tailer: Tailer
    const file: File
    const server: Server
    const disk: Disk
    const batchLines: nat
    var pending: seq<Bytes>
    var dropped: nat
    /** The stretch before this run's, which is the checkpoint's if there is one,
        and the stretch since. */
    ghost var past: Stretch
    ghost var run: Stretch

    ghost function Sending(): Queue
      reads this, server
    {
      Queue(pending, dropped, server.received, server.toldDropped)
    }

    ghost predicate Valid()
      reads this, tailer, tailer.path, file, server, disk
    {
      && tailer.Valid() && tailer.path.live == file && (tailer.file == null || tailer.file == file) && batchLines > 0
      && disk.Valid(file.content, server, tailer.maxLineBytes, tailer.maxReadBytes)
      && (disk.saved.Some? ==> past == disk.past)
      && (if tailer.started then Following() else Idle())
    }

    /** Nothing was read yet, because there is no checkpoint to read from. */
    ghost predicate Idle()
      reads this, tailer, disk
    {
      tailer.file == null && disk.saved.None? && pending == [] && dropped == 0
    }

    ghost predicate Following()
      reads this, tailer, file, server, disk
    {
      && run.to == tailer.offset && (disk.saved.None? ==> past == Empty(run.from))
      && Good(file.content, past, run, Sending(), tailer.maxLineBytes, tailer.maxReadBytes)
    }

    /** newSourceTailer: go on from the checkpoint, if there is one. */
    constructor (path: Path, file: File, server: Server, disk: Disk, maxLineBytes: int, maxBatchLines: int)
      requires path.live == file && |file.content| <= 0x7FFF_FFFF_FFFF_FFFF
      requires disk.Valid(file.content, server, LineLimit(maxLineBytes), MAX_READ)
      ensures Valid() && fresh(tailer) && this.file == file && this.server == server && this.disk == disk
      ensures tailer.path == path
      ensures tailer.maxLineBytes == LineLimit(maxLineBytes) && tailer.maxReadBytes == MAX_READ
      ensures if disk.saved.Some?
              then run == Empty(disk.saved.value.offset) && tailer.offset == disk.saved.value.offset && tailer.started
              else !tailer.started
    {
      var t := new Tailer(path, maxLineBytes);
      if disk.saved.Some? {
        AccountedMeans(file.content, disk.past, server.received, server.toldDropped, LineLimit(maxLineBytes), MAX_READ);
        t.Resume(disk.saved.value.offset, disk.saved.value.incarnation);
      }
      tailer, this.file, this.server, this.disk := t, file, server, disk;
      batchLines := if maxBatchLines <= 0 then 500 else maxBatchLines;
      pending, dropped := [], 0;
      past, run := disk.past, Empty(t.offset);
    }

    /** The writer appends. */
    method Grow(more: Bytes)
      requires Valid()
      modifies file
      ensures Valid() && file.content == old(file.content) + more
    {
      ghost var content := file.content;
      file.content := file.content + more;
      ghost var limit, maxRead := tailer.maxLineBytes, tailer.maxReadBytes;
      if disk.saved.Some? {
        GrownGood(content, file.content, past, Empty(past.to), Queue([], 0, server.received, server.toldDropped), limit,
                  maxRead);
      }
      if tailer.started {
        GrownGood(content, file.content, past, run, Sending(), limit, maxRead);
      }
    }

    /** One tick of the loop: poll, bound the queue, ship what can be shipped,
        and save the checkpoint only when nothing is left to ship. */
    method Tick() returns (polled: bool)
      requires Valid()
      modifies this, tailer, server, disk
      ensures Valid()
      ensures disk.saved != old(disk.saved) ==>
        pending == [] && disk.saved == Some(Checkpoint(tailer.offset, tailer.incarnation))
      ensures Origin(old(disk.saved).Some?, old(disk.past), old(tailer.started), old(run))
      // What is pending after a poll is sent until a batch is not confirmed, and
      // a checkpoint is written exactly when all of it was.
      ensures !polled ==> server.answers == old(server.answers) && disk.attempts == old(disk.attempts)
      ensures polled && server.answers == old(server.answers) ==> pending == [] && disk.attempts == old(disk.attempts)
      ensures server.answers != old(server.answers) ==>
        && Sent(old(server.answers), server.answers)
        && (server.answers[|server.answers| - 1] <==> pending == [])
        && disk.attempts == old(disk.attempts) + if pending == [] then 1 else 0
    {
      polled := Collect();
      if !polled || |pending| == 0 {
        return;
      }
      var all := ShipPending();
      if all {
        Save();
      }
    }

    /** Where what is accounted for begins: it never moves once a checkpoint is
        there, and before that it is where this run's first poll found the end. */
    ghost predicate Origin(saved: bool, past0: Stretch, started: bool, run0: Stretch)
      reads this, disk, tailer, file
    {
      if saved then disk.saved.Some? && disk.past.from == past0.from
      else
        var from := if started then run0.from else |file.content|;
        (disk.saved.Some? ==> disk.past.from == from) && (disk.saved.None? && tailer.started ==> run.from == from)
    }

    /** Poll, and keep only the newest lines if there are too many. */
    method Collect() returns (polled: bool)
      requires Valid()
      modifies this, tailer
      ensures Valid() && (pending != [] ==> tailer.started) && (polled ==> |pending| <= MAX_PENDING)
      ensures tailer.started ==> run.from == if old(tailer.started) then old(run).from else |file.content|
      ensures (old(tailer.started) ==> tailer.started) && (disk.saved.Some? ==> past == old(past))
    {
      polled := Poll();
      if polled && |pending| > MAX_PENDING {
        Drop(|pending| - MAX_PENDING);
      }
    }

    /** Poll the tailer and queue what it returns. */
    method Poll() returns (polled: bool)
      requires Valid()
      modifies this, tailer
      ensures Valid() && (pending != [] ==> tailer.started) && (!polled ==> pending == old(pending))
      ensures tailer.started ==> run.from == if old(tailer.started) then old(run).from else |file.content|
      ensures (old(tailer.started) ==> tailer.started) && (disk.saved.Some? ==> past == old(past))
    {
      if tailer.started {
        polled := PollOn();
      } else {
        polled := PollFirst();
      }
    }

    /** Without a checkpoint the first poll starts at the end of the file. */
    method PollFirst() returns (polled: bool)
      requires Valid() && !tailer.started
      modifies this`past, this`run, tailer
      ensures Valid() && (polled ==> tailer.started) && (tailer.started ==> run == Empty(|file.content|))
    {
      var r, got, from := tailer.Poll();
      polled := r.Some?;
      past, run := Empty(tailer.offset), Empty(tailer.offset);
      if tailer.started {
        EmptyAccounted(file.content, tailer.offset, server.received, server.toldDropped, tailer.maxLineBytes,
                       tailer.maxReadBytes);
      }
    }

    /** A later poll goes on where the last one ended. */
    method PollOn() returns (polled: bool)
      requires Valid() && tailer.started
      modifies this`pending, this`run, tailer
      ensures Valid() && tailer.started && run.from == old(run).from && (!polled ==> pending == old(pending))
    {
      ghost var limit, maxRead := tailer.maxLineBytes, tailer.maxReadBytes;
      GoodMeans(file.content, past, run, Sending(), limit, maxRead);
      var r, got := tailer.PollOn(run.from, run.pieces);
      PolledGood(file.content, past, run, Sending(), limit, maxRead, got, tailer.offset);
      polled := r.Some?;
      run := run.(to := tailer.offset, pieces := run.pieces + got);
      pending := pending + if polled then r.value else [];
    }

    /** The oldest pending lines are given up and counted. */
    method Drop(over: nat)
      requires Valid() && over <= |pending| && tailer.started
      modifies this`pending, this`dropped, this`run
      ensures Valid() && pending == old(pending)[over..] && dropped == old(dropped) + over && run.from == old(run).from
    {
      DroppedGood(file.content, past, run, Sending(), tailer.maxLineBytes, tailer.maxReadBytes, over);
      run := run.(lost := run.lost + multiset(pending[..over]));
      pending, dropped := pending[over..], dropped + over;
    }

    /** Ship batches until one fails. */
    method ShipPending() returns (all: bool)
      requires Valid() && tailer.started && pending != []
      modifies this`pending, this`dropped, this`run, server
      ensures Valid() && (all <==> pending == []) && (all ==> dropped == 0) && run.from == old(run).from
      ensures Sent(old(server.answers), server.answers) && server.answers[|server.answers| - 1] == all
    {
      while pending != []
        invariant Valid() && (pending == [] ==> dropped == 0) && run.from == old(run).from
        invariant old(server.answers) <= server.answers && (pending == [] ==> server.answers != old(server.answers))
        invariant forall i :: |old(server.answers)| <= i < |server.answers| ==> server.answers[i]
        decreases |pending|
      {
        var ok := ShipBatch();
        if !ok {
          return false;
        }
      }
      all := true;
    }

    /** One batch, with the drops not yet reported. */
    method ShipBatch() returns (ok: bool)
      requires Valid() && tailer.started && pending != []
      modifies this`pending, this`dropped, this`run, server
      ensures Valid() && run.from == old(run).from
      ensures if ok then |pending| < |old(pending)| && dropped == 0
              else pending == old(pending) && dropped == old(dropped)
      ensures ok ==>
        var n := Least(|old(pending)|, batchLines);
        && pending == old(pending)[n..] && server.received == old(server.received) + multiset(old(pending)[..n])
        && server.toldDropped == old(server.toldDropped) + old(dropped)
      ensures server.answers == old(server.answers) + [ok]
    {
      var n := Least(|pending|, batchLines);
      ghost var limit, maxRead := tailer.maxLineBytes, tailer.maxReadBytes;
      ArrivedGood(file.content, past, run, Sending(), limit, maxRead, n);
      if disk.saved.Some? {
        MoreArrived(file.content, past, server.received, server.toldDropped, limit, maxRead, multiset(pending[..n]),
                    dropped);
      }
      ok := server.Ship(pending[..n], dropped);
      if ok {
        run := run.(arrived := run.arrived + multiset(pending[..n]));
        pending, dropped := pending[n..], 0;
      }
    }

    /** saveLogCheckpoint, which may fail: the lines up to here are settled. */
    method Save()
      requires Valid() && tailer.started && pending == [] && dropped == 0
      modifies this`past, this`run, disk
      ensures Valid()
      ensures disk.saved == old(disk.saved) || disk.saved == Some(Checkpoint(tailer.offset, tailer.incarnation))
      ensures disk.saved.None? ==> run == old(run)
      ensures disk.saved.Some? ==> disk.past.from == old(past).from
      ensures old(disk.saved).Some? ==> disk.saved.Some?
      ensures disk.attempts == old(disk.attempts) + 1
    {
      disk.attempts := disk.attempts + 1;
      var saves: bool := *;
      if !saves {
        return;
      }
      SavedGood(file.content, past, run, Sending(), tailer.maxLineBytes, tailer.maxReadBytes);
      past := Both(past, run);
      disk.past := past;
      disk.saved := Some(Checkpoint(tailer.offset, tailer.incarnation));
      run := Empty(tailer.offset);
    }
  }

  /** Batches were sent, each but the last one confirmed. */
  ghost predicate Sent(answers: seq<bool>, answers': seq<bool>) {
    answers < answers' && forall i :: |answers| <= i < |answers'| - 1 ==> answers'[i]
  }

  function Least(a: nat, b: nat): nat {
    if a > b then b else a
  }

  lemma MoreArrived(content: Bytes, past: Stretch, received: multiset<Bytes>, told: nat, limit: nat, maxRead: nat,
                    batch: multiset<Bytes>, n: nat)
    requires Accounted(content, past, received, told, limit, maxRead)
    ensures Accounted(content, past, received + batch, told + n, limit, maxRead)
  {
    AccountedMeans(content, past, received, told, limit, maxRead);
    AccountedMeans(content, past, received + batch, told + n, limit, maxRead);
    Grows(past.arrived, received, batch);
  }

  /** Any number of restarts over a file that only grows: every line before the
      checkpoint was received or counted, and each run goes on from it. */
  method Live(path: Path, file: File, server: Server, disk: Disk, maxLineBytes: int, maxBatchLines: int)
    requires path.live == file && disk.Valid(file.content, server, LineLimit(maxLineBytes), MAX_READ)
    modifies file, server, disk
    ensures old(file.content) <= file.content && disk.Valid(file.content, server, LineLimit(maxLineBytes), MAX_READ)
    ensures old(disk.saved).Some? ==> disk.saved.Some? && disk.past.from == old(disk.past).from
    ensures old(disk.saved).None? && disk.saved.Some? ==> |old(file.content)| <= disk.past.from
  {
    var runs: nat :| true;
    for i := 0 to runs
      invariant old(file.content) <= file.content && disk.Valid(file.content, server, LineLimit(maxLineBytes), MAX_READ)
      invariant old(disk.saved).Some? ==> disk.saved.Some? && disk.past.from == old(disk.past).from
      invariant old(disk.saved).None? && disk.saved.Some? ==> |old(file.content)| <= disk.past.from
    {
      if |file.content| > 0x7FFF_FFFF_FFFF_FFFF {
        return;
      }
      var s := new Shipper(path, file, server, disk, maxLineBytes, maxBatchLines);
      var ticks: nat :| true;
      for j := 0 to ticks
        invariant s.Valid() && fresh(s) && fresh(s.tailer) && s.file == file && s.server == server && s.disk == disk
        invariant s.tailer.maxLineBytes == LineLimit(maxLineBytes) && s.tailer.maxReadBytes == MAX_READ
        invariant old(file.content) <= file.content
        invariant old(disk.saved).Some? ==> disk.saved.Some? && disk.past.from == old(disk.past).from
        invariant old(disk.saved).None? && disk.saved.Some? ==> |old(file.content)| <= disk.past.from
        invariant disk.saved.None? && s.tailer.started ==> |old(file.content)| <= s.run.from
      {
        var more: Bytes := *;
        s.Grow(more);
        var _ := s.Tick();
      }
    }
  }
}
