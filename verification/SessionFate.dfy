/** What becomes of a connection at a tick or a poll, told by what is stored of it
    (internal/sessionasm/sessionasm.go). */
module SessionFate {
  import opened Common
  import opened SessionConn
  import opened SessionIndex

  /** Something of a connection that a record could be found by. */
  predicate Reportable(c: Conn) {
    c.rec.srcIP != "" || c.rec.dstHost != ""
  }

  /** The final record of c with this ending: it says when and how c ended and
      otherwise what c's record said. */
  ghost predicate EndsAs(r: ConnRecord, c: Conn, reason: Reason, error: string, endedAt: int, durationMS: int,
                         gen: nat) {
    && !r.open && r.reason == reason && r.error == error && r.endedAt == endedAt && r.durationMS == durationMS
    && r.generation == gen && r.logID == c.rec.logID && r.startedAt == c.rec.startedAt
    && r.srcIP == c.rec.srcIP && r.srcPort == c.rec.srcPort && r.dstHost == c.rec.dstHost
    && r.bytesKnown == c.rec.bytesKnown && r.upload == c.rec.upload && r.download == c.rec.download
    && r.stalledAt == c.rec.stalledAt
  }

  /** A close without a reason is unknown, never blank. */
  function Named(reason: Reason): Reason {
    if reason.NoReason? then Unknown else reason
  }

  /** finish: how long it lasted is what the core said last, or, where the agent
      timed the end itself, whole milliseconds of the agent's clock and never less
      than none. */
  lemma FinalRecordMeans(c: Conn, cand: Candidate, endedAt: int, fromClock: bool, gen: nat)
    ensures EndsAs(FinalRecord(c, cand, endedAt, fromClock, gen), c, Named(cand.reason), cand.error, endedAt,
                   if !fromClock then c.lastElapsedMS
                   else if endedAt > c.rec.startedAt then (endedAt - c.rec.startedAt) / 1_000_000 else 0, gen)
  {
  }

  /** Some emission is the final record of c with this ending. */
  ghost predicate Ended(news: seq<Emission>, c: Conn, reason: Reason, error: string, endedAt: int, durationMS: int,
                        gen: nat) {
    exists i :: 0 <= i < |news| && EndsAs(news[i].record, c, reason, error, endedAt, durationMS, gen)
  }

  /** No emission is a final record of connection id. */
  ghost predicate NoFinal(news: seq<Emission>, id: nat) {
    forall i :: 0 <= i < |news| && news[i].record.logID == id ==> news[i].record.open
  }

  ghost predicate Silent(news: seq<Emission>, id: nat) {
    forall i :: 0 <= i < |news| ==> news[i].record.logID != id
  }

  /** Where an emission comes from, and that all of them arrive. */
  lemma {:induction false} EmitsFrom(ids: seq<nat>, f: nat -> seq<Emission>, i: nat) returns (id: nat)
    requires i < |Emits(ids, f)|
    ensures id in ids && Emits(ids, f)[i] in f(id)
  {
    var front, last := ids[..|ids| - 1], ids[|ids| - 1];
    if i < |Emits(front, f)| {
      id := EmitsFrom(front, f, i);
    } else {
      id := last;
    }
  }

  lemma {:induction false} EmitsAll(ids: seq<nat>, f: nat -> seq<Emission>, id: nat, x: Emission)
    requires id in ids && x in f(id)
    ensures x in Emits(ids, f)
  {
    var front, last := ids[..|ids| - 1], ids[|ids| - 1];
    if id in front {
      EmitsAll(front, f, id, x);
    }
  }

  /** Every connection emits under its own id only. */
  ghost predicate OwnIds(f: nat -> seq<Emission>, ids: seq<nat>) {
    forall id, x :: id in ids && x in f(id) ==> x.record.logID == id
  }

  /** What is emitted under an id is what its connection emits. */
  lemma EmitsOwn(ids: seq<nat>, f: nat -> seq<Emission>, id: nat, i: nat)
    requires OwnIds(f, ids) && i < |Emits(ids, f)| && Emits(ids, f)[i].record.logID == id
    ensures Emits(ids, f)[i] in f(id)
  {
    var from := EmitsFrom(ids, f, i);
  }

  /** What a tick does with connection id, which was at c. While the newest poll
      lists it, only silence for the whole TTL ends it. Otherwise one half close
      ends it once the grace is over, as that half close said and when it came.
      An orphan ends now, as unknown. Whoever goes on is published when due. */
  ghost predicate TickFate(id: nat, c: Conn, open: map<nat, Conn>, news: seq<Emission>, now: int, polls: nat, gen: nat,
                           o: Options) {
    var listed := c.sampled && c.lastSnapSeq == polls;
    var settled := c.firstHalfAt != 0 && now - c.firstHalfAt >= o.halfCloseGrace && !listed;
    var orphan := now - c.lastSeenAt >= o.orphanTTL && !settled;
    && (listed && now - c.lastSeenAt < o.orphanTTL ==> id in open && NoFinal(news, id))
    && (settled ==> id !in open && (Reportable(c) ==>
          Ended(news, c, Named(c.close.reason), c.close.error, c.firstHalfAt, c.lastElapsedMS, gen)))
    && (orphan ==> id !in open && (Reportable(c) ==>
          Ended(news, c, Unknown, c.close.error, now, c.lastElapsedMS, gen)))
    && (!settled && !orphan ==> id in open && NoFinal(news, id) && Published(id, c, open[id], news, now, o))
  }

  /** A connection that goes on emits one snapshot of itself if the last is long
      enough ago, and nothing otherwise. */
  ghost predicate Published(id: nat, c: Conn, c': Conn, news: seq<Emission>, now: int, o: Options) {
    if now - c.lastEmitAt >= o.snapshotEvery
    then c'.lastEmitAt == now && !Silent(news, id)
    else c'.lastEmitAt == c.lastEmitAt && Silent(news, id)
  }

  lemma TickOwn(b: Book, now: int, polls: nat, gen: nat, o: Options)
    requires Sound(b, o.stallQuiet, polls)
    ensures OwnIds(TickOf(b, now, polls, gen, o), b.order)
  {
    forall id, x | id in b.order && x in TickOf(b, now, polls, gen, o)(id) ensures x.record.logID == id {
      OpenOne(b, o.stallQuiet, polls, id);
    }
  }

  /** A reported ending is among the emissions. */
  lemma EndingEmitted(ids: seq<nat>, f: nat -> seq<Emission>, id: nat, c: Conn, e: Evidence, cand: Candidate,
                      endedAt: int, fromClock: bool, gen: nat)
    requires id in ids && f(id) == Report(FinalRecord(c, cand, endedAt, fromClock, gen), e) && Reportable(c)
    ensures Ended(Emits(ids, f), c, Named(cand.reason), cand.error, endedAt,
                  if !fromClock then c.lastElapsedMS
                  else if endedAt > c.rec.startedAt then (endedAt - c.rec.startedAt) / 1_000_000 else 0, gen)
  {
    var x := Emission(FinalRecord(c, cand, endedAt, fromClock, gen), e);
    FinalRecordMeans(c, cand, endedAt, fromClock, gen);
    assert x in f(id);
    EmitsAll(ids, f, id, x);
    var i :| 0 <= i < |Emits(ids, f)| && Emits(ids, f)[i] == x;
  }

  /** What is emitted under an id, given what its connection emits. */
  lemma OnlyOpen(ids: seq<nat>, f: nat -> seq<Emission>, id: nat)
    requires OwnIds(f, ids) && id in ids && |f(id)| <= 1 && (f(id) != [] ==> f(id)[0].record.open)
    ensures NoFinal(Emits(ids, f), id) && (Silent(Emits(ids, f), id) <==> f(id) == [])
  {
    var news := Emits(ids, f);
    forall i | 0 <= i < |news| && news[i].record.logID == id ensures news[i] in f(id) {
      EmitsOwn(ids, f, id, i);
    }
    if f(id) != [] {
      assert f(id)[0] in f(id);
      EmitsAll(ids, f, id, f(id)[0]);
    }
  }

  /** The fields decide what a tick does. */
  lemma TickEnds(b: Book, id: nat, now: int, polls: nat, gen: nat, o: Options)
    requires Sound(b, o.stallQuiet, polls) && id in b.open
    ensures TickFate(id, b.open[id], Ticked(b.open, now, polls, o), Emits(b.order, TickOf(b, now, polls, gen, o)),
                     now, polls, gen, o)
  {
    var c, f := b.open[id], TickOf(b, now, polls, gen, o);
    OpenOne(b, o.stallQuiet, polls, id);
    var listed := c.sampled && c.lastSnapSeq == polls;
    var settled := c.firstHalfAt != 0 && now - c.firstHalfAt >= o.halfCloseGrace && !listed;
    if settled {
      if Reportable(c) {
        EndingEmitted(b.order, f, id, c, b.known[id], c.close, c.firstHalfAt, false, gen);
      }
    } else if now - c.lastSeenAt >= o.orphanTTL {
      if Reportable(c) {
        var cand := Candidate(Unknown, c.close.error, RANK_TERMINAL);
        EndingEmitted(b.order, f, id, c, b.known[id], cand, now, false, gen);
      }
    } else {
      TickOwn(b, now, polls, gen, o);
      OnlyOpen(b.order, f, id);
    }
  }

  /** What a poll does with connection id, which the poll left at c: it goes on if
      this poll listed it, or none ever did. Otherwise it ended, with what it said
      or else unknown, and then at the instant of the poll. */
  ghost predicate PollFate(id: nat, c: Conn, open: map<nat, Conn>, news: seq<Emission>, at: int, polls: nat, gen: nat) {
    if !c.sampled || c.lastSnapSeq == polls then id in open && open[id] == c && Silent(news, id)
    else
      && id !in open
      && (Reportable(c) ==>
            if c.close.rank > 0 then Ended(news, c, Named(c.close.reason), c.close.error, at, c.lastElapsedMS, gen)
            else Ended(news, c, Unknown, "", at,
                       if at > c.rec.startedAt then (at - c.rec.startedAt) / 1_000_000 else 0, gen))
  }

  lemma VanishOwn(b: Book, quiet: int, at: int, polls: nat, gen: nat)
    requires Sound(b, quiet, polls)
    ensures OwnIds(LastOf(b, VanishSweep(at, polls, gen)), b.order)
  {
    forall id, x | id in b.order && x in LastOf(b, VanishSweep(at, polls, gen))(id) ensures x.record.logID == id {
      OpenOne(b, quiet, polls, id);
    }
  }

  /** The fields decide what the end of a poll does. */
  lemma PollEnds(b: Book, quiet: int, id: nat, at: int, polls: nat, gen: nat)
    requires Sound(b, quiet, polls) && id in b.open
    ensures PollFate(id, b.open[id], Left(b.open, VanishSweep(at, polls, gen)),
                     Emits(b.order, LastOf(b, VanishSweep(at, polls, gen))), at, polls, gen)
  {
    var c, f := b.open[id], LastOf(b, VanishSweep(at, polls, gen));
    OpenOne(b, quiet, polls, id);
    if !c.sampled || c.lastSnapSeq == polls {
      VanishOwn(b, quiet, at, polls, gen);
      OnlyOpen(b.order, f, id);
    } else if Reportable(c) {
      var unknown := Candidate(Unknown, "", RANK_TERMINAL);
      EndingEmitted(b.order, f, id, c, b.known[id], if c.close.rank == 0 then unknown else c.close, at,
                    c.close.rank == 0, gen);
    }
  }

  /** One item of a poll: it tells about the connection that holds its source
      unless it started more than half a minute before it. */
  ghost predicate ItemTold(b: Book, b': Book, item: Item, at: int, polls: nat) {
    var key := SrcKey(item.srcIP, item.srcPort);
    && b'.order == b.order && b'.bySrc == b.bySrc && b'.open.Keys == b.open.Keys
    && (forall id :: id in b.open && (key !in b.bySrc || b.bySrc[key] != id) ==>
          b'.open[id] == b.open[id] && (id in b.known ==> id in b'.known && b'.known[id] == b.known[id]))
    && (item.srcIP != "" && key in b.bySrc && b.bySrc[key] in b.open && b.bySrc[key] in b.known ==>
          var id := b.bySrc[key];
          var c, c' := b.open[id], b'.open[id];
          if item.start != 0 && item.start < c.rec.startedAt - 30_000_000_000 then c' == c
          else
            && id in b'.known
            && b'.known[id].samples == b.known[id].samples + [Sample(at, item.upload, item.download, polls)]
            && c'.sampled && c'.lastSnapSeq == polls && c'.lastSeenAt == at && c'.close == c.close
            && c'.rec.bytesKnown && c'.rec.upload == item.upload && c'.rec.download == item.download
            && c'.rec.dstHost == if c.rec.dstHost == "" then item.dstHost else c.rec.dstHost)
  }

  lemma ItemTells(b: Book, item: Item, at: int, polls: nat, o: Options)
    ensures ItemTold(b, PolledOne(b, item, at, polls, o), item, at, polls)
  {
  }
}
