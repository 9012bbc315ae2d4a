/** Connections assembled out of log lines and connection-table polls
    (internal/sessionasm/sessionasm.go). */
module SessionAsm {
  import opened Common
  import opened DoneIds
  import opened SessionConn
  import opened SessionIndex
  import opened SessionFate
  import opened SessionLine
  import opened SessionLists

  /** The final records among those emitted; open snapshots do not count. */
  ghost function FinalOnes(emitted: seq<Emission>): set<nat> {
    set i: nat | i < |emitted| && !emitted[i].record.open
  }

  ghost function Finals(emitted: seq<Emission>): nat {
    |FinalOnes(emitted)|
  }

  lemma FinalsOneMore(emitted: seq<Emission>, x: Emission)
    ensures Finals(emitted + [x]) == Finals(emitted) + if x.record.open then 0 else 1
  {
    assert FinalOnes(emitted + [x]) == FinalOnes(emitted) + if x.record.open then {} else {|emitted|};
  }

  /** The emitted records that say more than their evidence. The assembler
      keeps this set empty. */
  ghost function Overstated(emitted: seq<Emission>, quiet: int): set<nat> {
    set i: nat | i < |emitted| && !Honest(emitted[i].record, emitted[i].evidence, quiet)
  }

  lemma OneMoreEmitted(emitted: seq<Emission>, quiet: int, x: Emission)
    requires Overstated(emitted, quiet) == {} && Honest(x.record, x.evidence, quiet)
    ensures Overstated(emitted + [x], quiet) == {}
  {
    forall i: nat | i < |emitted| + 1 ensures i !in Overstated(emitted + [x], quiet) {
      assert i !in Overstated(emitted, quiet);
    }
  }

  /** Every record ever emitted states no more than was known of its connection
      when it was. */
  lemma EveryRecordHonest(emitted: seq<Emission>, quiet: int, i: nat)
    requires Overstated(emitted, quiet) == {} && i < |emitted|
    ensures Honest(emitted[i].record, emitted[i].evidence, quiet)
  {
    assert i !in Overstated(emitted, quiet);
  }

  ghost function Records(emitted: seq<Emission>): seq<ConnRecord> {
    seq(|emitted|, i requires 0 <= i < |emitted| => emitted[i].record)
  }

  lemma RecordsOneMore(emitted: seq<Emission>, x: Emission)
    ensures Records(emitted + [x]) == Records(emitted) + [x.record]
  {
  }

  /** What finish does with a final record: emitted, or counted as partial. */
  ghost predicate Reported(r: ConnRecord, e: Evidence, emitted: seq<Emission>, emitted': seq<Emission>, partial: nat,
                           partial': nat) {
    emitted' == emitted + Report(r, e) && partial' == partial + 1 - |Report(r, e)|
  }

  /** The shelf with connection id revised and one more reason heard of it. */
  ghost function HeardShelf(s: Shelf, id: nat, c: Conn, reason: Reason): Shelf
    requires id in s.book.known
  {
    s.(book := s.book.(open := s.book.open[id := c], known := s.book.known[id := Heard(s.book.known[id], reason)]))
  }

  lemma TwoParts<T>(s: seq<T>, t: seq<T>, u: seq<T>)
    requires s + t <= u
    ensures s <= u && u[|s|..] == t + u[|s + t|..]
  {
  }

  /** Where a tick began. */
  datatype TickStart = TickStart(book: Book, done: seq<nat>, emitted: seq<Emission>, orphaned: nat, now: int, gen: nat)

  class Assembler {
    const opts: Options
    const classify: string -> Reason
    var gen: nat
    var open: map<nat, Conn>
    var order: seq<nat>
    var bySrc: map<SrcKey, nat>
    /** The done ids, as the contents of a DoneSet: oldest first. */
    var done: seq<nat>
    var out: seq<ConnRecord>
    var swept: nat
    var orphaned: nat
    var partial: nat
    var dropped: nat
    var snapSeq: nat
    /** Connections ever created, what is known about the open ones, everything
        ever emitted, and what was drained of it. */
    ghost var created: nat
    ghost var known: map<nat, Evidence>
    ghost var emitted: seq<Emission>
    ghost var drained: seq<ConnRecord>
    /** Every line ever fed, and every answer Tracked ever gave. */
    ghost var fed: seq<Line>
    ghost var asked: seq<(nat, bool)>

    constructor (opts: Options, classify: string -> Reason)
      requires opts.maxOpen > 0 && opts.stallQuiet > 0
      ensures Valid() && order == [] && created == 0 && emitted == [] && done == [] && open == map[]
      ensures drained == [] && fed == [] && asked == [] && TrackedIds() == {} && this.opts == opts
      ensures this.classify == classify
    {
      this.opts := opts;
      this.classify := classify;
      gen, open, order, bySrc, done, out := 0, map[], [], map[], [], [];
      swept, orphaned, partial, dropped, snapSeq := 0, 0, 0, 0, 0;
      created, known, emitted, drained, fed, asked := 0, map[], [], [], [], [];
      new;
      EmptySound(opts.stallQuiet);
    }

    ghost function Books(): Book
      reads this`open, this`order, this`bySrc, this`known
    {
      Book(open, order, bySrc, known)
    }

    ghost function Held(): Shelf
      reads this`open, this`order, this`bySrc, this`known, this`done
    {
      Shelf(Books(), done)
    }

    /** The indexes agree and never hold more than the cap; every connection
        ever created is open, recorded, partial or dropped; no record ever
        emitted states more than was observed; and every record emitted was
        drained or is still to be. */
    ghost predicate Valid()
      reads this
    {
      && opts.maxOpen > 0 && opts.stallQuiet > 0
      && Sound(Books(), opts.stallQuiet, snapSeq)
      && |order| <= opts.maxOpen
      && created == |order| + Finals(emitted) + partial + dropped
      && Queued()
    }

    ghost predicate Queued()
      reads this`emitted, this`drained, this`out
    {
      Overstated(emitted, opts.stallQuiet) == {} && Records(emitted) == drained + out
    }

    ghost function TrackedIds(): set<nat>
      reads this`open, this`done
    {
      Tracked(open, done)
    }

    ghost function FoldRules(): Rules
      reads this`gen
    {
      Rules(classify, gen, opts.maxOpen)
    }

    /** forget, and remember the id as done. */
    method Retire(id: nat)
      requires Sound(Books(), opts.stallQuiet, snapSeq) && id in open
      modifies this`open, this`order, this`bySrc, this`done
      ensures Sound(Books(), opts.stallQuiet, snapSeq) && |order| == |old(order)| - 1
      ensures Leaves(old(Held()), Held(), id, opts.maxOpen)
      ensures id in TrackedIds() && TrackedIds() <= old(TrackedIds())
    {
      OpenOne(Books(), opts.stallQuiet, snapSeq, id);
      var i :| 0 <= i < |order| && order[i] == id;
      ListedOnce(Books(), opts.stallQuiet, snapSeq, i);
      WithoutAt(order, i);
      ForgetSound(Books(), opts.stallQuiet, snapSeq, i);
      RetiredStaysTracked(open, done, opts.maxOpen, id);
      bySrc := Unindexed(bySrc, id, open[id].srcKey);
      open, order, done := open - {id}, order[..i] + order[i + 1..], Remember(done, opts.maxOpen, id);
    }

    method Push(r: ConnRecord, ghost e: Evidence)
      requires Queued() && Honest(r, e, opts.stallQuiet)
      modifies this`out, this`emitted
      ensures Queued() && emitted == old(emitted) + [Emission(r, e)] && out == old(out) + [r]
      ensures Finals(emitted) == Finals(old(emitted)) + if r.open then 0 else 1
    {
      FinalsOneMore(emitted, Emission(r, e));
      OneMoreEmitted(emitted, opts.stallQuiet, Emission(r, e));
      RecordsOneMore(emitted, Emission(r, e));
      out, emitted := out + [r], emitted + [Emission(r, e)];
    }

    /** finish: stop tracking and emit the final record, with what is known. */
    method Finish(id: nat, cand: Candidate, endedAt: int, fromClock: bool)
      requires Valid() && id in open
      requires id in known && (cand.reason == NoReason || MayName(known[id], cand.reason))
      modifies this`open, this`order, this`bySrc, this`out, this`emitted, this`partial, this`done
      ensures Valid() && |order| == |old(order)| - 1 && Leaves(old(Held()), Held(), id, opts.maxOpen)
      ensures id in TrackedIds() && TrackedIds() <= old(TrackedIds())
      ensures Reported(FinalRecord(old(open)[id], cand, endedAt, fromClock, gen), known[id], old(emitted), emitted,
                       old(partial), partial)
      ensures emitted != old(emitted) ==>
        EndsAs(emitted[|old(emitted)|].record, old(open)[id], Named(cand.reason), cand.error, endedAt,
               if !fromClock then old(open)[id].lastElapsedMS
               else if endedAt > old(open)[id].rec.startedAt then (endedAt - old(open)[id].rec.startedAt) / 1_000_000
               else 0, gen)
    {
      FinalOne(Books(), opts.stallQuiet, snapSeq, id, cand, endedAt, fromClock, gen);
      FinalRecordMeans(open[id], cand, endedAt, fromClock, gen);
      FinishWith(id, FinalRecord(open[id], cand, endedAt, fromClock, gen), known[id]);
    }

    /** finish, with its record. */
    method FinishWith(id: nat, r: ConnRecord, ghost e: Evidence)
      requires Valid() && id in open && Honest(r, e, opts.stallQuiet) && !r.open
      modifies this`open, this`order, this`bySrc, this`out, this`emitted, this`partial, this`done
      ensures Valid() && |order| == |old(order)| - 1 && Leaves(old(Held()), Held(), id, opts.maxOpen)
      ensures id in TrackedIds() && TrackedIds() <= old(TrackedIds())
      ensures Reported(r, e, old(emitted), emitted, old(partial), partial)
    {
      if r.srcIP == "" && r.dstHost == "" {
        partial := partial + 1;
      } else {
        Push(r, e);
      }
      Retire(id);
    }

    /** evictOldest: the connection created first is dropped without a record. */
    method EvictOldest()
      requires Valid() && order != []
      modifies this`open, this`order, this`bySrc, this`dropped, this`done
      ensures Valid() && order == old(order)[1..] && dropped == old(dropped) + 1
      ensures Leaves(old(Held()), Held(), old(order)[0], opts.maxOpen) && TrackedIds() <= old(TrackedIds())
    {
      ListedOne(Books(), opts.stallQuiet, snapSeq, 0);
      dropped := dropped + 1;
      Retire(order[0]);
    }

    /** create: start tracking, making room first if the cap is reached. */
    method Create(l: Line, at: int)
      requires Valid() && l.logID !in open
      modifies this`open, this`order, this`bySrc, this`dropped, this`done, this`known, this`created
      ensures Valid() && created == old(created) + 1 && CreatedAs(old(Held()), Held(), l, at, opts.maxOpen)
      ensures TrackedIds() <= old(TrackedIds()) + {l.logID}
      ensures dropped == old(dropped) + if Evicts(old(Books()), l.logID, opts.maxOpen) then 1 else 0
      ensures var c := open[l.logID];
              && c.rec.logID == l.logID && c.rec.startedAt == at - l.elapsedMS * 1_000_000 && c.lastSeenAt == at
              && c.lastElapsedMS == l.elapsedMS && !c.sampled && c.close.rank == 0 && c.firstHalfAt == 0
              && !c.closedUp && !c.closedDown && c.srcKey == None
    {
      MakeRoom(l.logID);
      NewConnOk(l, at, opts.stallQuiet);
      Insert(l.logID, NewConn(l, at));
    }

    /** Evict the oldest connection if the cap is reached. */
    method MakeRoom(ghost id: nat)
      requires Valid() && id !in open
      modifies this`open, this`order, this`bySrc, this`dropped, this`done
      ensures Valid() && |order| < opts.maxOpen && TrackedIds() <= old(TrackedIds()) && id !in open
      ensures Roomy(old(Held()), Held(), id, opts.maxOpen)
      ensures dropped == old(dropped) + if Evicts(old(Books()), id, opts.maxOpen) then 1 else 0
    {
      SameSize(Books(), opts.stallQuiet, snapSeq);
      if |open| >= opts.maxOpen {
        ghost var s := Held();
        EvictOldest();
        RoomMade(s, Held(), id, opts.maxOpen);
      }
    }

    /** The end of create, with room for one more. */
    method Insert(id: nat, c: Conn)
      requires Valid() && id !in open && |order| < opts.maxOpen
      requires c.rec.logID == id && !c.sampled && ConnOk(c, NOTHING, opts.stallQuiet)
      modifies this`open, this`order, this`known, this`created
      ensures Valid() && created == old(created) + 1 && open == old(open)[id := c] && order == old(order) + [id]
      ensures known == old(known)[id := NOTHING] && TrackedIds() <= old(TrackedIds()) + {id}
    {
      CreateSound(Books(), opts.stallQuiet, snapSeq, id, c, NOTHING);
      RevisedStaysTracked(open, done, id, c);
      created := created + 1;
      open, order, known := open[id := c], order + [id], known[id := NOTHING];
    }

    /** Replace the state of one open connection. */
    method Revise(id: nat, c: Conn, ghost e: Evidence)
      requires Valid() && id in open && c.rec.logID == id && c.srcKey == open[id].srcKey
      requires ConnOk(c, e, opts.stallQuiet) && (c.sampled ==> c.lastSnapSeq <= snapSeq)
      modifies this`open, this`known
      ensures Valid() && open == old(open)[id := c] && known == old(known)[id := e]
      ensures TrackedIds() == old(TrackedIds())
    {
      ReviseSound(Books(), opts.stallQuiet, snapSeq, id, c, e);
      RevisedStaysTracked(open, done, id, c);
      open, known := open[id := c], known[id := e];
    }

    /** indexSrc, with the source just learned. */
    method IndexSrc(id: nat, c: Conn)
      requires Valid() && id in open && SameFacts(open[id], c) && c.rec.srcIP != ""
      modifies this`open, this`bySrc
      ensures Valid() && TrackedIds() == old(TrackedIds())
      ensures open == old(open)[id := c.(srcKey := Some(SrcKey(c.rec.srcIP, c.rec.srcPort)))]
      ensures bySrc == Reindexed(old(bySrc), id, old(open)[id].srcKey, SrcKey(c.rec.srcIP, c.rec.srcPort))
    {
      var key := SrcKey(c.rec.srcIP, c.rec.srcPort);
      var c' := c.(srcKey := Some(key));
      OpenOne(Books(), opts.stallQuiet, snapSeq, id);
      SameFactsOk(open[id], c'.(srcKey := c.srcKey), known[id], opts.stallQuiet);
      ReindexSound(Books(), opts.stallQuiet, snapSeq, id, c', key);
      RevisedStaysTracked(open, done, id, c');
      bySrc := Reindexed(bySrc, id, open[id].srcKey, key);
      open := open[id := c'];
    }

    /** What was emitted since. */
    ghost function News(before: seq<Emission>): seq<Emission>
      reads this`emitted
    {
      if before <= emitted then emitted[|before|..] else []
    }

    /** apply: what one line tells about its connection. */
    method Apply(id: nat, l: Line, at: int)
      requires Valid() && id in open
      modifies this`open, this`order, this`bySrc, this`out, this`emitted, this`partial, this`done, this`known
      ensures Valid() && id in TrackedIds() && TrackedIds() <= old(TrackedIds()) && old(emitted) <= emitted
      ensures Folds(old(Held()), Held(), News(old(emitted)), id, l, at, FoldRules())
    {
      if l.event.OutboundTo? && open[id].haveOutbound {
        Keep(id, Seen(open[id], at), l, at);
      } else if l.event.InboundFrom? && l.srcIP != "" {
        LearnSource(id, l, at);
      } else if Terminal(l.event) {
        CloseTerminal(id, l, at);
      } else if Half(l.event) {
        CloseHalf(id, l, at);
      } else {
        Keep(id, Folded(open[id], l, at), l, at);
      }
    }

    /** A line that only fills in fields, or shows life. */
    method Keep(id: nat, c: Conn, l: Line, at: int)
      requires Valid() && id in open && After(open[id], l, at, classify) == Some(c) && !Closing(l.event)
      requires SameFacts(open[id], c)
      requires l.event.InboundFrom? ==> l.srcIP == ""
      modifies this`open, this`known
      ensures Valid() && TrackedIds() == old(TrackedIds()) && id in open
      ensures Folds(old(Held()), Held(), [], id, l, at, FoldRules())
    {
      OpenOne(Books(), opts.stallQuiet, snapSeq, id);
      SameFactsOk(open[id], c, known[id], opts.stallQuiet);
      Revise(id, c, known[id]);
      FoldsMeans(old(Held()), Held(), [], id, l, at, FoldRules());
    }

    /** The line that names the source. */
    method LearnSource(id: nat, l: Line, at: int)
      requires Valid() && id in open && l.event.InboundFrom? && l.srcIP != ""
      modifies this`open, this`bySrc
      ensures Valid() && TrackedIds() == old(TrackedIds()) && id in open
      ensures Folds(old(Held()), Held(), [], id, l, at, FoldRules())
    {
      OpenOne(Books(), opts.stallQuiet, snapSeq, id);
      SameKnown(known, id);
      IndexSrc(id, Folded(open[id], l, at));
      FoldsMeans(old(Held()), Held(), [], id, l, at, FoldRules());
    }

    /** The terminal events of apply finish the connection at once. */
    method CloseTerminal(id: nat, l: Line, at: int)
      requires Valid() && id in open && Terminal(l.event)
      modifies this`open, this`order, this`bySrc, this`out, this`emitted, this`partial, this`done, this`known
      ensures Valid() && id in TrackedIds() && TrackedIds() <= old(TrackedIds()) && old(emitted) <= emitted
      ensures Folds(old(Held()), Held(), News(old(emitted)), id, l, at, FoldRules())
    {
      var c, cand := Folded(open[id], l, at), Stated(l, classify);
      Hear(id, l, at, c, cand);
      FinishHeard(id, c, cand, l, at, old(Held()));
    }

    /** finish, after the line that ends connection id was folded into it. */
    method FinishHeard(id: nat, c: Conn, cand: Candidate, ghost l: Line, at: int, ghost s: Shelf)
      requires Valid() && id in known && (cand.reason == NoReason || MayName(known[id], cand.reason))
      requires id in s.book.open && id in s.book.known && c.srcKey == s.book.open[id].srcKey
      requires Closing(l.event) && Held() == HeardShelf(s, id, c, Stated(l, classify).reason)
      requires After(s.book.open[id], l, at, classify).None?
      requires FinalRecord(c, cand, at, false, gen) == LastWords(s.book.open[id], l, at, classify, gen)
      modifies this`open, this`order, this`bySrc, this`out, this`emitted, this`partial, this`done
      ensures Valid() && id in TrackedIds() && TrackedIds() <= old(TrackedIds()) && old(emitted) <= emitted
      ensures Folds(s, Held(), News(old(emitted)), id, l, at, FoldRules())
    {
      ghost var s1 := Held();
      Finish(id, cand, at, false);
      LeavesRevised(s, s1, Held(), id, c, opts.maxOpen);
      EndingFolds(s, Held(), News(old(emitted)), id, l, at, FoldRules());
    }

    /** The line is folded in and its reason is heard. */
    method Hear(id: nat, l: Line, at: int, c: Conn, cand: Candidate)
      requires Valid() && id in open && Closing(l.event) && c == Folded(open[id], l, at) && cand == Stated(l, classify)
      modifies this`open, this`known
      ensures Valid() && TrackedIds() == old(TrackedIds()) && open == old(open)[id := c]
      ensures id in old(known) && known == old(known)[id := Heard(old(known)[id], cand.reason)]
      ensures MayName(known[id], cand.reason)
      ensures c.srcKey == old(open)[id].srcKey
    {
      OpenOne(Books(), opts.stallQuiet, snapSeq, id);
      FoldedOk(open[id], l, at, known[id], opts.stallQuiet);
      HeardOk(c, known[id], cand, opts.stallQuiet);
      Revise(id, c, Heard(known[id], cand.reason));
    }

    /** A half close is offered as evidence and waits for the other half. */
    method CloseHalf(id: nat, l: Line, at: int)
      requires Valid() && id in open && Half(l.event)
      modifies this`open, this`order, this`bySrc, this`out, this`emitted, this`partial, this`done, this`known
      ensures Valid() && id in TrackedIds() && TrackedIds() <= old(TrackedIds()) && old(emitted) <= emitted
      ensures Folds(old(Held()), Held(), News(old(emitted)), id, l, at, FoldRules())
    {
      var h := Halved(open[id], l, at, classify);
      if h.closedUp && h.closedDown {
        CloseBoth(id, l, at, h);
      } else {
        AwaitOther(id, l, at, h);
      }
    }

    /** One half is closed and the other is awaited. */
    method AwaitOther(id: nat, l: Line, at: int, h: Conn)
      requires Valid() && id in open && Half(l.event) && h == Halved(open[id], l, at, classify)
      requires !(h.closedUp && h.closedDown)
      modifies this`open, this`known
      ensures Valid() && id in TrackedIds() && TrackedIds() == old(TrackedIds())
      ensures Folds(old(Held()), Held(), [], id, l, at, FoldRules())
    {
      Offering(id, l, at, h);
      FoldsMeans(old(Held()), Held(), [], id, l, at, FoldRules());
    }

    /** Both halves are closed. */
    method CloseBoth(id: nat, l: Line, at: int, h: Conn)
      requires Valid() && id in open && Half(l.event) && h == Halved(open[id], l, at, classify)
      requires h.closedUp && h.closedDown
      modifies this`open, this`order, this`bySrc, this`out, this`emitted, this`partial, this`done, this`known
      ensures Valid() && id in TrackedIds() && TrackedIds() <= old(TrackedIds()) && old(emitted) <= emitted
      ensures Folds(old(Held()), Held(), News(old(emitted)), id, l, at, FoldRules())
    {
      Offering(id, l, at, h);
      FinishHeard(id, h, h.close, l, at, old(Held()));
    }

    /** The evidence of a half close is offered. */
    method Offering(id: nat, l: Line, at: int, h: Conn)
      requires Valid() && id in open && Half(l.event) && h == Halved(open[id], l, at, classify)
      modifies this`open, this`known
      ensures Valid() && TrackedIds() == old(TrackedIds()) && open == old(open)[id := h]
      ensures id in old(known) && known == old(known)[id := Heard(old(known)[id], Stated(l, classify).reason)]
      ensures h.srcKey == old(open)[id].srcKey && (h.close.reason == NoReason || MayName(known[id], h.close.reason))
    {
      var c, cand := Folded(open[id], l, at), Stated(l, classify);
      OpenOne(Books(), opts.stallQuiet, snapSeq, id);
      FoldedOk(open[id], l, at, known[id], opts.stallQuiet);
      HalfOk(c, known[id], cand, l.direction, at, opts.stallQuiet);
      Revise(id, h, Heard(known[id], cand.reason));
    }

    /** Line: feed one parsed log line. An inbound-from line on an open id ends
        the old connection as unknown and starts a new one; any other line of a
        finished id is ignored; the first line of an unknown id starts one. */
    method Line(l: Line, now: int)
      requires Valid()
      modifies this`open, this`order, this`bySrc, this`out, this`emitted, this`partial, this`dropped, this`done
      modifies this`known, this`created, this`fed
      ensures Valid() && fed == old(fed) + [l] && old(emitted) <= emitted
      ensures TrackedIds() <= old(TrackedIds()) + (if l.hasLogID then {l.logID} else {})
      ensures l.hasLogID ==> l.logID in TrackedIds()
      ensures created == old(created) + if Starts(l, old(TrackedIds())) then 1 else 0
      ensures dropped == old(dropped) +
        if Starts(l, old(TrackedIds())) && Evicts(old(Books()), l.logID, opts.maxOpen) then 1 else 0
      ensures Continues(l, old(open)) ==>
        Folds(old(Held()), Held(), News(old(emitted)), l.logID, l, if l.at == 0 then now else l.at, FoldRules())
      ensures Starts(l, old(TrackedIds())) ==>
        Begins(old(Held()), Held(), News(old(emitted)), l, if l.at == 0 then now else l.at, FoldRules())
      ensures !Continues(l, old(open)) && !Starts(l, old(TrackedIds())) ==>
        Held() == old(Held()) && emitted == old(emitted)
    {
      fed := fed + [l];
      if !l.hasLogID {
        return;
      }
      var at := Instant(l, now);
      var id := l.logID;
      if l.event.InboundFrom? {
        BeginAnew(l, at);
      } else if id in open {
        Apply(id, l, at);
      } else if id !in done {
        Begin(l, at);
      }
    }

    /** The first line of a connection, whoever held its id before. */
    method BeginAnew(l: Line, at: int)
      requires Valid()
      modifies this`open, this`order, this`bySrc, this`out, this`emitted, this`partial, this`dropped, this`done
      modifies this`known, this`created
      ensures Valid() && created == old(created) + 1 && l.logID in TrackedIds()
      ensures TrackedIds() <= old(TrackedIds()) + {l.logID}
      ensures dropped == old(dropped) + if Evicts(old(Books()), l.logID, opts.maxOpen) then 1 else 0
      ensures old(emitted) <= emitted && Begins(old(Held()), Held(), News(old(emitted)), l, at, FoldRules())
    {
      if l.logID in open {
        BeginOver(l, at);
      } else {
        Begin(l, at);
      }
    }

    /** The first line of a connection whose id another one still holds. */
    method BeginOver(l: Line, at: int)
      requires Valid() && l.logID in open
      modifies this`open, this`order, this`bySrc, this`out, this`emitted, this`partial, this`dropped, this`done
      modifies this`known, this`created
      ensures Valid() && created == old(created) + 1 && l.logID in TrackedIds()
      ensures TrackedIds() <= old(TrackedIds()) + {l.logID} && dropped == old(dropped)
      ensures old(emitted) <= emitted && Begins(old(Held()), Held(), News(old(emitted)), l, at, FoldRules())
    {
      ghost var s, e := Held(), emitted;
      Collide(l.logID, at);
      ghost var s1, e1 := Held(), emitted;
      Begin(l, at);
      CollidesFirst(s, s1, Held(), News(e1), l, at, FoldRules());
      TwoParts(e, CollideEmits(s.book.open[l.logID], s.book.known[l.logID], at, gen), emitted);
    }

    /** Two connections met on one log id: the older one ends as unknown. */
    method Collide(id: nat, at: int)
      requires Valid() && id in open
      modifies this`open, this`order, this`bySrc, this`out, this`emitted, this`partial, this`done
      ensures Valid() && TrackedIds() <= old(TrackedIds()) && |order| == |old(order)| - 1
      ensures Leaves(old(Held()), Held(), id, opts.maxOpen)
      ensures id in known && emitted == old(emitted) + CollideEmits(old(open)[id], known[id], at, gen)
    {
      OpenOne(Books(), opts.stallQuiet, snapSeq, id);
      Finish(id, Candidate(Unknown, "", RANK_TERMINAL), at, false);
    }

    /** The first line of a connection. */
    method Begin(l: Line, at: int)
      requires Valid() && l.logID !in open
      modifies this`open, this`order, this`bySrc, this`out, this`emitted, this`partial, this`dropped, this`done
      modifies this`known, this`created
      ensures Valid() && created == old(created) + 1 && l.logID in TrackedIds()
      ensures TrackedIds() <= old(TrackedIds()) + {l.logID}
      ensures dropped == old(dropped) + if Evicts(old(Books()), l.logID, opts.maxOpen) then 1 else 0
      ensures old(emitted) <= emitted && Begins(old(Held()), Held(), News(old(emitted)), l, at, FoldRules())
    {
      ghost var s := Held();
      Create(l, at);
      ghost var s1 := Held();
      Apply(l.logID, l, at);
      FoldsBegin(s, s1, Held(), News(old(emitted)), l, at, FoldRules());
    }

    /** What a pass over the connections works on. */
    ghost function Now(): Pass
      reads this`open, this`known, this`emitted
    {
      Pass(open, known, emitted)
    }

    /** Whoever of the old order is not open any more is out of it and remembered
        as done, in that order. */
    ghost predicate Passed(was: seq<nat>, wasDone: seq<nat>)
      reads this`open, this`order, this`done
    {
      order == Only(was, open.Keys) && done == RememberAll(wasDone, opts.maxOpen, Gone(was, open.Keys))
    }

    /** Snapshot: feed one /connections poll. Each item counts for the connection
        that holds its source key; then every connection that was listed before
        and is not listed now has ended. */
    method Snapshot(items: seq<Item>, polledAt: int, now: int)
      requires Valid() && now != 0
      modifies this`open, this`order, this`bySrc, this`out, this`emitted, this`partial, this`done, this`known,
        this`snapSeq
      ensures Valid() && TrackedIds() <= old(TrackedIds()) && snapSeq == old(snapSeq) + 1
      ensures var at := if polledAt == 0 then now else polledAt;
              var polled, sweep := Polled(old(Books()), items, at, snapSeq, opts), VanishSweep(at, snapSeq, gen);
              && open == Left(polled.open, sweep) && known == polled.known && Passed(old(order), old(done))
              && emitted == old(emitted) + Emits(old(order), LastOf(polled, sweep))
      ensures forall id :: id in open && open[id].sampled ==> open[id].lastSnapSeq == snapSeq
      ensures var at := if polledAt == 0 then now else polledAt;
              var polled := Polled(old(Books()), items, at, snapSeq, opts);
              forall id :: id in polled.open ==>
                PollFate(id, polled.open[id], open, News(old(emitted)), at, snapSeq, gen)
    {
      var at := if polledAt == 0 then now else polledAt;
      NextPollSound(Books(), opts.stallQuiet, snapSeq);
      snapSeq := snapSeq + 1;
      JoinAll(items, at);
      SweepVanished(at);
    }

    method JoinAll(items: seq<Item>, at: int)
      requires Valid() && at != 0
      modifies this`open, this`known
      ensures Valid() && TrackedIds() == old(TrackedIds())
      ensures Books() == Polled(old(Books()), items, at, snapSeq, opts)
    {
      for i := 0 to |items|
        invariant Valid() && TrackedIds() == old(TrackedIds())
        invariant Books() == Polled(old(Books()), items[..i], at, snapSeq, opts)
      {
        assert items[..i + 1][..i] == items[..i];
        JoinItem(items[i], at);
      }
      assert items[..|items|] == items;
    }

    /** One item of a poll. */
    method JoinItem(item: Item, at: int)
      requires Valid() && at != 0
      modifies this`open, this`known
      ensures Valid() && TrackedIds() == old(TrackedIds())
      ensures Books() == PolledOne(old(Books()), item, at, snapSeq, opts)
      ensures ItemTold(old(Books()), Books(), item, at, snapSeq)
    {
      ItemTells(Books(), item, at, snapSeq, opts);
      JoinHolder(item, at);
    }

    /** Look up the holder of its source, and join. */
    method JoinHolder(item: Item, at: int)
      requires Valid() && at != 0
      modifies this`open, this`known
      ensures Valid() && TrackedIds() == old(TrackedIds())
      ensures Books() == PolledOne(old(Books()), item, at, snapSeq, opts)
    {
      var key := SrcKey(item.srcIP, item.srcPort);
      if item.srcIP == "" || key !in bySrc {
        return;
      }
      var id := bySrc[key];
      SoundMeans(Books(), opts.stallQuiet, snapSeq);
      OpenOne(Books(), opts.stallQuiet, snapSeq, id);
      var c := open[id];
      if Reused(c, item) {
        return;
      }
      JoinHonest(c, known[id], item, at, snapSeq, opts.stallFloor, opts.stallQuiet);
      Revise(id, Join(c, item, at, snapSeq, opts.stallFloor, opts.stallQuiet),
             Joined(c, known[id], item, at, snapSeq, opts.stallFloor, opts.stallQuiet));
    }

    /** sweepVanished: a connection listed before and not now has ended. */
    method SweepVanished(at: int)
      requires Valid()
      modifies this`open, this`order, this`bySrc, this`out, this`emitted, this`partial, this`done
      ensures Valid() && TrackedIds() <= old(TrackedIds())
      ensures var sweep := VanishSweep(at, snapSeq, gen);
              && open == Left(old(open), sweep) && Passed(old(order), old(done))
              && emitted == old(emitted) + Emits(old(order), LastOf(old(Books()), sweep))
      ensures forall id :: id in open && open[id].sampled ==> open[id].lastSnapSeq == snapSeq
      ensures forall id :: id in old(open) ==>
        PollFate(id, old(open)[id], open, News(old(emitted)), at, snapSeq, gen)
    {
      ghost var b, sweep := Books(), VanishSweep(at, snapSeq, gen);
      SweepEach(at);
      NewestPoll(Books(), opts.stallQuiet, snapSeq);
      assert News(old(emitted)) == Emits(b.order, LastOf(b, sweep));
      forall id | id in b.open ensures PollFate(id, b.open[id], open, News(old(emitted)), at, snapSeq, gen) {
        PollEnds(b, opts.stallQuiet, id, at, snapSeq, gen);
      }
    }

    /** The loop of sweepVanished. */
    method SweepEach(at: int)
      requires Valid()
      modifies this`open, this`order, this`bySrc, this`out, this`emitted, this`partial, this`done
      ensures Valid() && TrackedIds() <= old(TrackedIds())
      ensures var sweep := VanishSweep(at, snapSeq, gen);
              && open == Left(old(open), sweep) && Passed(old(order), old(done))
              && emitted == old(emitted) + Emits(old(order), LastOf(old(Books()), sweep))
    {
      var todo := order;
      ghost var b, sweep := Books(), VanishSweep(at, snapSeq, gen);
      ghost var left := Left(open, sweep).Keys;
      for i := 0 to |todo|
        invariant Valid() && TrackedIds() <= old(TrackedIds())
        invariant Now() == Visits(old(Now()), todo[..i], SweepVisit(sweep))
        invariant PassedBy(todo, left, old(done), opts.maxOpen, i, order, done)
      {
        ListedOnce(b, opts.stallQuiet, snapSeq, i);
        SweepMeets(b, opts.stallQuiet, snapSeq, old(emitted), sweep, i);
        OneMoreVisit(old(Now()), todo, i, SweepVisit(sweep));
        OneMorePassed(todo, left, old(done), opts.maxOpen, i, order, done);
        SweepIfVanished(todo[i], at);
      }
      assert todo[..|todo|] == todo;
      SweepDone(b, opts.stallQuiet, snapSeq, old(emitted), sweep);
      AllPassed(todo, left, old(done), opts.maxOpen, order, done);
    }

    method SweepIfVanished(id: nat, at: int)
      requires Valid() && id in open
      modifies this`open, this`order, this`bySrc, this`out, this`emitted, this`partial, this`done
      ensures Valid() && TrackedIds() <= old(TrackedIds())
      ensures Now() == SweepVisit(VanishSweep(at, snapSeq, gen))(old(Now()), id)
      ensures order == if Vanished(old(open)[id], snapSeq) then Without(old(order), id) else old(order)
      ensures done == if Vanished(old(open)[id], snapSeq) then Remember(old(done), opts.maxOpen, id) else old(done)
    {
      OpenOne(Books(), opts.stallQuiet, snapSeq, id);
      if Vanished(open[id], snapSeq) {
        Vanish(id, at);
      }
    }

    /** It left the table: with what it said, or unknown at the poll instant. */
    method Vanish(id: nat, at: int)
      requires Valid() && id in open
      modifies this`open, this`order, this`bySrc, this`out, this`emitted, this`partial, this`done
      ensures Valid() && TrackedIds() <= old(TrackedIds()) && Leaves(old(Held()), Held(), id, opts.maxOpen)
      ensures id in known && emitted == old(emitted) + VanishEmits(old(open)[id], known[id], at, gen)
    {
      OpenOne(Books(), opts.stallQuiet, snapSeq, id);
      var close := open[id].close;
      if close.rank == 0 {
        Finish(id, Candidate(Unknown, "", RANK_TERMINAL), at, true);
      } else {
        Finish(id, close, at, false);
      }
    }

    /** Tick: half-close grace, orphans, stalls and open snapshots. Exactly the
        connections whose grace or orphan time is over end. */
    method Tick(now: int)
      requires Valid()
      modifies this`open, this`known, this`order, this`bySrc, this`out, this`emitted, this`partial, this`done,
        this`orphaned
      ensures Valid() && TrackedIds() <= old(TrackedIds())
      ensures open == Ticked(old(open), now, snapSeq, opts) && Passed(old(order), old(done))
      ensures orphaned == old(orphaned) + Orphans(old(Books()), old(order), now, snapSeq, opts)
      ensures known == TickKnows(old(Books()), now, snapSeq, opts)
      ensures emitted == old(emitted) + Emits(old(order), TickOf(old(Books()), now, snapSeq, gen, opts))
      ensures forall id :: id in old(open) ==>
        TickFate(id, old(open)[id], open, News(old(emitted)), now, snapSeq, gen, opts)
    {
      var todo := order;
      ghost var b := Books();
      ghost var from := TickStart(b, done, emitted, orphaned, now, gen);
      for i := 0 to |todo|
        invariant Valid() && TrackedIds() <= old(TrackedIds()) && Ticking(from, i)
      {
        TickNth(todo[i], now, from, i);
      }
      assert todo[..|todo|] == todo;
      TickDone(b, old(emitted), now, snapSeq, gen, opts);
      AllPassed(todo, Ticked(b.open, now, snapSeq, opts).Keys, old(done), opts.maxOpen, order, done);
      assert News(old(emitted)) == Emits(b.order, TickOf(b, now, snapSeq, gen, opts));
      forall id | id in b.open ensures TickFate(id, b.open[id], open, News(old(emitted)), now, snapSeq, gen, opts) {
        TickEnds(b, id, now, snapSeq, gen, opts);
      }
    }

    /** The first i connections have been dealt with since the tick began. */
    ghost predicate Ticking(t: TickStart, i: nat)
      reads this
    {
      var b := t.book;
      && i <= |b.order| && gen == t.gen && Sound(b, opts.stallQuiet, snapSeq)
      && Now() == Visits(Pass(b.open, b.known, t.emitted), b.order[..i], TickVisit(t.now, snapSeq, gen, opts))
      && PassedBy(b.order, Ticked(b.open, t.now, snapSeq, opts).Keys, t.done, opts.maxOpen, i, order, done)
      && orphaned == t.orphaned + Orphans(b, b.order[..i], t.now, snapSeq, opts)
    }

    method TickNth(id: nat, now: int, ghost t: TickStart, ghost i: nat)
      requires Valid() && Ticking(t, i) && i < |t.book.order| && id == t.book.order[i] && now == t.now
      modifies this`open, this`known, this`order, this`bySrc, this`out, this`emitted, this`partial, this`done
      modifies this`orphaned
      ensures Valid() && TrackedIds() <= old(TrackedIds()) && Ticking(t, i + 1)
    {
      ghost var p := Now();
      NextTick(t, i);
      TickOne(id, now);
      assert Now() == TickVisit(now, snapSeq, gen, opts)(p, id);
    }

    /** What the next connection of a tick is, and what becomes of the lists. */
    lemma NextTick(t: TickStart, i: nat)
      requires Ticking(t, i) && i < |t.book.order|
      ensures var b, id := t.book, t.book.order[i];
              var left, visit := Ticked(b.open, t.now, snapSeq, opts).Keys, TickVisit(t.now, snapSeq, gen, opts);
              && id in open && id in known && id in b.open && open[id] == b.open[id]
              && Visits(Pass(b.open, b.known, t.emitted), b.order[..i + 1], visit) == visit(Now(), id)
              && Orphans(b, b.order[..i + 1], t.now, snapSeq, opts) ==
                   Orphans(b, b.order[..i], t.now, snapSeq, opts) + Orphan(b, id, t.now, snapSeq, opts)
              && (id in left <==> !Over(open[id], t.now, snapSeq, opts))
              && (id in left ==> PassedBy(b.order, left, t.done, opts.maxOpen, i + 1, order, done))
              && (id !in left ==>
                    PassedBy(b.order, left, t.done, opts.maxOpen, i + 1, Without(order, id),
                             Remember(done, opts.maxOpen, id)))
    {
      var b, visit := t.book, TickVisit(t.now, snapSeq, gen, opts);
      ListedOnce(b, opts.stallQuiet, snapSeq, i);
      TickMeets(b, t.emitted, i, t.now, snapSeq, gen, opts);
      OneMoreVisit(Pass(b.open, b.known, t.emitted), b.order, i, visit);
      OneMorePassed(b.order, Ticked(b.open, t.now, snapSeq, opts).Keys, t.done, opts.maxOpen, i, order, done);
      OrphansOneMore(b, b.order, i, t.now, snapSeq, opts);
    }

    /** One connection of Tick. One half close settles it after the grace,
        unless the connection table still lists it. */
    method TickOne(id: nat, now: int)
      requires Valid() && id in open && id in known
      modifies this`open, this`known, this`order, this`bySrc, this`out, this`emitted, this`partial, this`done,
        this`orphaned
      ensures Valid() && TrackedIds() <= old(TrackedIds())
      ensures Over(old(open)[id], now, snapSeq, opts) ==> Leaves(old(Held()), Held(), id, opts.maxOpen)
      ensures !Over(old(open)[id], now, snapSeq, opts) ==>
        open == old(open)[id := Watched(old(open)[id], now, opts)] && order == old(order) && done == old(done)
      ensures orphaned == old(orphaned) + Orphan(old(Books()), id, now, snapSeq, opts)
      ensures known == old(known)[id := TickKnowsOne(old(Books()), id, now, snapSeq, opts)]
      ensures emitted == old(emitted) + TickEmits(old(open)[id], old(known)[id], now, snapSeq, gen, opts)
    {
      SameKnown(known, id);
      var c := open[id];
      if Over(c, now, snapSeq, opts) {
        Expire(id, c, now);
      } else {
        Watch(id, c, now);
      }
    }

    /** The ends a tick makes: of a half close with what it said, and of an
        orphan as unknown. */
    method Expire(id: nat, c: Conn, now: int)
      requires Valid() && id in open && id in known && c == open[id] && Over(c, now, snapSeq, opts)
      modifies this`open, this`order, this`bySrc, this`out, this`emitted, this`partial, this`done, this`orphaned
      ensures Valid() && TrackedIds() <= old(TrackedIds()) && Leaves(old(Held()), Held(), id, opts.maxOpen)
      ensures orphaned == old(orphaned) + if IsOrphan(c, now, snapSeq, opts) then 1 else 0
      ensures emitted == old(emitted) + TickEmits(c, known[id], now, snapSeq, gen, opts)
    {
      OpenOne(Books(), opts.stallQuiet, snapSeq, id);
      if GraceOver(c, now, opts.halfCloseGrace, snapSeq) {
        Finish(id, c.close, c.firstHalfAt, false);
      } else {
        orphaned := orphaned + 1;
        Finish(id, Candidate(Unknown, c.close.error, RANK_TERMINAL), now, false);
      }
    }

    /** The rest of Tick: promote a stall, and publish a long-lived connection. */
    method Watch(id: nat, c: Conn, now: int)
      requires Valid() && id in open && id in known && c == open[id] && !Over(c, now, snapSeq, opts)
      modifies this`open, this`known, this`out, this`emitted
      ensures Valid() && TrackedIds() == old(TrackedIds()) && open == old(open)[id := Watched(c, now, opts)]
      ensures known == old(known)[id := StallNoted(c, old(known)[id], now, opts.stallFloor, opts.stallQuiet)]
      ensures emitted == old(emitted) + TickEmits(c, old(known)[id], now, snapSeq, gen, opts)
    {
      WatchOne(Books(), snapSeq, id, now, opts, gen);
      RevisedStaysTracked(open, done, id, Watched(c, now, opts));
      ghost var e := StallNoted(c, known[id], now, opts.stallFloor, opts.stallQuiet);
      var w := Watched(c, now, opts);
      if now - c.lastEmitAt >= opts.snapshotEvery {
        Push(OpenRecord(w, now, gen), e);
      }
      open, known := open[id := w], known[id := e];
    }

    /** CoreRestart: every open connection ends, still in the old generation. The
        finished ids mean nothing to the new process and go too. */
    method RestartCore(newGeneration: nat, at: int)
      requires Valid()
      modifies this`open, this`order, this`bySrc, this`out, this`emitted, this`partial, this`done, this`swept, this`gen
      ensures Valid() && open == map[] && order == [] && done == [] && TrackedIds() == {}
      ensures gen == newGeneration && swept == old(swept) + |old(order)|
      ensures emitted == old(emitted) + Emits(old(order), LastOf(old(Books()), RestartSweep(at, old(gen))))
    {
      SweepAll(at);
      done := [];
      gen := newGeneration;
    }

    /** The loop of CoreRestart takes the oldest until none is left. */
    method SweepAll(at: int)
      requires Valid()
      modifies this`open, this`order, this`bySrc, this`out, this`emitted, this`partial, this`done, this`swept
      ensures Valid() && open == map[] && order == [] && swept == old(swept) + |old(order)|
      ensures emitted == old(emitted) + Emits(old(order), LastOf(old(Books()), RestartSweep(at, gen)))
    {
      ghost var b, sweep, i: nat := Books(), RestartSweep(at, gen), 0;
      while order != []
        invariant Valid() && i <= |b.order| && order == b.order[i..] && swept == old(swept) + i
        invariant Now() == Visits(old(Now()), b.order[..i], SweepVisit(sweep))
        decreases |order|
      {
        OneMoreVisit(old(Now()), b.order, i, SweepVisit(sweep));
        SweepOldest(at);
        i := i + 1;
      }
      assert b.order[..i] == b.order;
      SweepDone(b, opts.stallQuiet, snapSeq, old(emitted), sweep);
    }

    method SweepOldest(at: int)
      requires Valid() && order != []
      modifies this`open, this`order, this`bySrc, this`out, this`emitted, this`partial, this`done, this`swept
      ensures Valid() && order == old(order)[1..] && swept == old(swept) + 1
      ensures Now() == SweepVisit(RestartSweep(at, gen))(old(Now()), old(order)[0])
    {
      ListedNext(Books(), opts.stallQuiet, snapSeq, 0);
      SweepOne(order[0], at);
    }

    method SweepOne(id: nat, at: int)
      requires Valid() && id in open && order != [] && order[0] == id
      modifies this`open, this`order, this`bySrc, this`out, this`emitted, this`partial, this`done, this`swept
      ensures Valid() && open == old(open) - {id} && order == old(order)[1..] && swept == old(swept) + 1
      ensures id in known && emitted == old(emitted) + RestartEmits(old(open)[id], known[id], at, gen)
    {
      OpenOne(Books(), opts.stallQuiet, snapSeq, id);
      swept := swept + 1;
      Finish(id, Candidate(CoreRestart, "", RANK_TERMINAL), at, true);
    }

    /** Tracked: held open, or finished and remembered. */
    method IsTracked(id: nat) returns (tracked: bool)
      requires Valid()
      modifies this`asked
      ensures Valid() && asked == old(asked) + [(id, tracked)]
      ensures tracked <==> id in TrackedIds()
    {
      tracked := id in open || id in done;
      asked := asked + [(id, tracked)];
    }

    /** Drain: everything emitted since the last call. */
    method Drain() returns (records: seq<ConnRecord>)
      requires Valid()
      modifies this`out, this`drained
      ensures Valid() && records == old(out) && out == [] && drained == old(drained) + records
      ensures Records(emitted) == drained
    {
      records := out;
      out, drained := [], drained + out;
    }
  }

  lemma SameKnown(known: map<nat, Evidence>, id: nat)
    ensures id in known ==> known[id := known[id]] == known
  {
  }
}
