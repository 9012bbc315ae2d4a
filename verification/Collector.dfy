/** The log stream of the trace collector: the guard decides on each line that
    the assembler may see, while polls, ticks and restarts happen between any two
    of its calls (cmd/lattice-agent/tracesource.go). */
module Collector {
  import opened SessionConn
  import opened Verdicts
  import ShedMarks
  import SessionAsm
  import TraceShed

  /** The answers of Tracked that the decisions were made on. */
  ghost function Answers(v: seq<TraceShed.Verdict>): seq<(nat, bool)> {
    seq(|v|, i requires 0 <= i < |v| => (v[i].id, v[i].tracked))
  }

  /** The ids of the kept lines, in order. */
  ghost function KeptIds(v: seq<TraceShed.Verdict>): seq<nat> {
    if v == [] then [] else KeptIds(v[..|v| - 1]) + if v[|v| - 1].kept then [v[|v| - 1].id] else []
  }

  /** The ids of the lines that were fed to the assembler, in order. */
  ghost function FedIds(fed: seq<Line>): seq<nat> {
    if fed == [] then [] else FedIds(fed[..|fed| - 1]) + if fed[|fed| - 1].hasLogID then [fed[|fed| - 1].logID] else []
  }

  /** The assembler was asked once for every decision, and was fed exactly the
      lines that were kept. */
  ghost predicate Paired(v: seq<TraceShed.Verdict>, asked: seq<(nat, bool)>, fed: seq<Line>) {
    asked == Answers(v) && FedIds(fed) == KeptIds(v)
  }

  lemma OneMorePaired(v: seq<TraceShed.Verdict>, e: TraceShed.Verdict, asked: seq<(nat, bool)>, fed: seq<Line>, l: Line)
    requires Paired(v, asked, fed) && l.hasLogID && e.id == l.logID
    ensures Paired(v + [e], asked + [(e.id, e.tracked)], fed + if e.kept then [l] else [])
  {
    assert (v + [e])[..|v|] == v && (fed + [l])[..|fed|] == fed && fed + [] == fed;
  }

  lemma AnonymousPaired(v: seq<TraceShed.Verdict>, asked: seq<(nat, bool)>, fed: seq<Line>, l: Line)
    requires Paired(v, asked, fed) && !l.hasLogID
    ensures Paired(v, asked, fed + [l])
  {
    assert (fed + [l])[..|fed|] == fed;
  }

  /** What became of one entry: over the ceiling or not understood, without a
      log id, or decided on as a line of a connection. */
  datatype Outcome = Unread | Anonymous(within: bool) | Decided(verdict: TraceShed.Verdict)

  predicate Fed(o: Outcome) {
    if o.Decided? then o.verdict.kept else o.Anonymous? && o.within
  }

  /** The outcome is one of this line. */
  predicate Fits(l: Line, o: Outcome) {
    match o
    case Unread => true
    case Anonymous(_) => !l.hasLogID
    case Decided(e) => l.hasLogID && e.id == l.logID && e.inboundFrom == l.event.InboundFrom?
  }

  ghost function Judged(o: Outcome): seq<TraceShed.Verdict> {
    if o.Decided? then [o.verdict] else []
  }

  /** The lines of a stream that were fed. */
  ghost function FedOf(entries: seq<Line>, outcomes: seq<Outcome>): seq<Line>
    requires |outcomes| == |entries|
  {
    if entries == [] then []
    else var n := |entries| - 1; FedOf(entries[..n], outcomes[..n]) + if Fed(outcomes[n]) then [entries[n]] else []
  }

  /** The decisions on the lines of a stream. */
  ghost function JudgedOf(outcomes: seq<Outcome>): seq<TraceShed.Verdict> {
    if outcomes == [] then [] else JudgedOf(outcomes[..|outcomes| - 1]) + Judged(outcomes[|outcomes| - 1])
  }

  lemma FedOneMore(entries: seq<Line>, outcomes: seq<Outcome>, l: Line, o: Outcome)
    requires |outcomes| == |entries|
    ensures FedOf(entries + [l], outcomes + [o]) == FedOf(entries, outcomes) + if Fed(o) then [l] else []
  {
    assert (entries + [l])[..|entries|] == entries && (outcomes + [o])[..|outcomes|] == outcomes;
  }

  lemma JudgedOneMore(outcomes: seq<Outcome>, o: Outcome)
    ensures JudgedOf(outcomes + [o]) == JudgedOf(outcomes) + Judged(o)
  {
    assert (outcomes + [o])[..|outcomes|] == outcomes;
  }

  lemma Appended<T>(s: seq<T>, t: seq<T>, u: seq<T>)
    ensures s + t + u == s + (t + u)
  {
  }

  /** What the outcomes of a stream must account for. */
  datatype Side = OfEntries | OfLines | OfDecisions

  ghost predicate Tells(side: Side, entries: seq<Line>, outcomes: seq<Outcome>, fed: seq<Line>, fed': seq<Line>,
                        v: seq<TraceShed.Verdict>, v': seq<TraceShed.Verdict>) {
    && |outcomes| == |entries|
    && match side
       case OfEntries => forall i :: 0 <= i < |entries| ==> Fits(entries[i], outcomes[i])
       case OfLines => fed' == fed + FedOf(entries, outcomes)
       case OfDecisions => v' == v + JudgedOf(outcomes)
  }

  ghost function Untold(entries: seq<Line>, outcomes: seq<Outcome>, fed: seq<Line>, fed': seq<Line>,
                        v: seq<TraceShed.Verdict>, v': seq<TraceShed.Verdict>): set<Side> {
    set side: Side | !Tells(side, entries, outcomes, fed, fed', v, v')
  }

  /** The outcomes account for every line fed since and every decision made. */
  ghost predicate Explained(entries: seq<Line>, outcomes: seq<Outcome>, fed: seq<Line>, fed': seq<Line>,
                            v: seq<TraceShed.Verdict>, v': seq<TraceShed.Verdict>) {
    Untold(entries, outcomes, fed, fed', v, v') == {}
  }

  lemma ExplainedMeans(entries: seq<Line>, outcomes: seq<Outcome>, fed: seq<Line>, fed': seq<Line>,
                       v: seq<TraceShed.Verdict>, v': seq<TraceShed.Verdict>)
    ensures Explained(entries, outcomes, fed, fed', v, v') <==>
      && |outcomes| == |entries| && (forall i :: 0 <= i < |entries| ==> Fits(entries[i], outcomes[i]))
      && fed' == fed + FedOf(entries, outcomes) && v' == v + JudgedOf(outcomes)
  {
    var untold := Untold(entries, outcomes, fed, fed', v, v');
    assert OfEntries in untold <==> !Tells(OfEntries, entries, outcomes, fed, fed', v, v');
    assert OfLines in untold <==> !Tells(OfLines, entries, outcomes, fed, fed', v, v');
    assert OfDecisions in untold <==> !Tells(OfDecisions, entries, outcomes, fed, fed', v, v');
  }

  lemma OneMoreExplained(entries: seq<Line>, outcomes: seq<Outcome>, fed: seq<Line>, fed': seq<Line>,
                         v: seq<TraceShed.Verdict>, v': seq<TraceShed.Verdict>, l: Line, o: Outcome)
    requires Explained(entries, outcomes, fed, fed', v, v') && Fits(l, o)
    ensures Explained(entries + [l], outcomes + [o], fed, fed' + (if Fed(o) then [l] else []), v, v' + Judged(o))
  {
    ExplainedMeans(entries, outcomes, fed, fed', v, v');
    FedOneMore(entries, outcomes, l, o);
    JudgedOneMore(outcomes, o);
    Appended(fed, FedOf(entries, outcomes), if Fed(o) then [l] else []);
    Appended(v, JudgedOf(outcomes), Judged(o));
    ExplainedMeans(entries + [l], outcomes + [o], fed, fed' + (if Fed(o) then [l] else []), v, v' + Judged(o));
  }

  /** The assembler and the guard of a collector, with one stream at a time
      feeding them. */
  class Stream {
    const asm: SessionAsm.Assembler
    const guard: TraceShed.Guard

    constructor (asm: SessionAsm.Assembler, guard: TraceShed.Guard)
      requires asm.Valid() && asm.TrackedIds() == {} && asm.asked == [] && asm.fed == []
      requires guard.Valid() && guard.verdicts == []
      ensures Valid() && this.asm == asm && this.guard == guard
    {
      this.asm, this.guard := asm, guard;
      new;
      assert forall x :: guard.shed.Has(x) <==> x in ShedIds();
      assert ShedIds() == {};
    }

    ghost function ShedIds(): set<nat>
      reads guard.shed
    {
      guard.shed.ids.Keys
    }

    ghost predicate Parts()
      reads asm, guard, guard.shed
    {
      asm.Valid() && guard.Valid()
    }

    /** Every decision agrees with the ones before it, and every tracked id and
        every shed one was treated so by its last line. */
    ghost predicate Settled()
      reads asm, guard, guard.shed
    {
      && Coherent(guard.verdicts)
      && Misplaced(guard.verdicts, asm.TrackedIds(), true) == {}
      && Misplaced(guard.verdicts, ShedIds(), false) == {}
    }

    ghost predicate Valid()
      reads asm, guard, guard.shed
    {
      Parts() && Settled() && Paired(guard.verdicts, asm.asked, asm.fed)
    }

    /** Whatever the goroutines that feed no lines do between two calls: they
        never begin to track an id, never shed one, and decide nothing. Marks go
        only by a reset. */
    method Others()
      requires Parts()
      modifies asm, guard, guard.shed
      ensures Parts() && asm.TrackedIds() <= old(asm.TrackedIds()) && ShedIds() <= old(ShedIds())
      ensures asm.asked == old(asm.asked) && asm.fed == old(asm.fed) && guard.verdicts == old(guard.verdicts)
      ensures guard.epoch >= old(guard.epoch)
      ensures guard.epoch == old(guard.epoch) ==> guard.shed.history == old(guard.shed.history)
    {
      var steps: nat :| true;
      for i := 0 to steps
        invariant Parts() && asm.TrackedIds() <= old(asm.TrackedIds()) && ShedIds() <= old(ShedIds())
        invariant asm.asked == old(asm.asked) && asm.fed == old(asm.fed) && guard.verdicts == old(guard.verdicts)
        invariant guard.epoch >= old(guard.epoch)
        invariant guard.epoch == old(guard.epoch) ==> guard.shed.history == old(guard.shed.history)
      {
        var fromAssembler: bool := *;
        if fromAssembler {
          AssemblerStep();
        } else {
          GuardStep();
        }
      }
    }

    method AssemblerStep()
      requires Parts()
      modifies asm
      ensures Parts() && asm.TrackedIds() <= old(asm.TrackedIds())
      ensures asm.asked == old(asm.asked) && asm.fed == old(asm.fed)
    {
      var step: int, gen: nat, clock: int := *, *, *;
      var now := if clock == 0 then 1 else clock;
      if step == 0 {
        Tick(now);
      } else if step == 1 {
        Poll(now);
      } else if step == 2 {
        Drain();
      } else {
        asm.RestartCore(gen, now);
      }
    }

    method Tick(now: int)
      requires Parts()
      modifies asm
      ensures Parts() && asm.TrackedIds() <= old(asm.TrackedIds())
      ensures asm.asked == old(asm.asked) && asm.fed == old(asm.fed)
    {
      asm.Tick(now);
    }

    method Drain()
      requires Parts()
      modifies asm
      ensures Parts() && asm.TrackedIds() <= old(asm.TrackedIds())
      ensures asm.asked == old(asm.asked) && asm.fed == old(asm.fed)
    {
      var _ := asm.Drain();
    }

    method Poll(now: int)
      requires Parts() && now != 0
      modifies asm
      ensures Parts() && asm.TrackedIds() <= old(asm.TrackedIds())
      ensures asm.asked == old(asm.asked) && asm.fed == old(asm.fed)
    {
      var items: seq<Item>, at: int := *, *;
      asm.Snapshot(items, at, now);
    }

    method GuardStep()
      requires Parts()
      modifies guard, guard.shed
      ensures Parts() && ShedIds() <= old(ShedIds()) && guard.verdicts == old(guard.verdicts)
      ensures guard.epoch >= old(guard.epoch)
      ensures guard.epoch == old(guard.epoch) ==> guard.shed.history == old(guard.shed.history)
    {
      var step: int, n: int := *, *;
      if step == 0 {
        guard.Reset();
        assert forall x :: x in guard.shed.ids ==> guard.shed.Has(x);
      } else if step == 1 {
        var _, _ := guard.Take();
      } else {
        guard.SetBudget(n);
      }
    }

    /** Other goroutines run while the stream holds nothing back. */
    method Interleave()
      requires Parts() && Settled()
      modifies asm, guard, guard.shed
      ensures Parts() && Settled() && asm.TrackedIds() <= old(asm.TrackedIds()) && ShedIds() <= old(ShedIds())
      ensures asm.asked == old(asm.asked) && asm.fed == old(asm.fed) && guard.verdicts == old(guard.verdicts)
    {
      ghost var tracked, shed := asm.TrackedIds(), ShedIds();
      Others();
      FewerPlaced(guard.verdicts, tracked, asm.TrackedIds(), true);
      FewerPlaced(guard.verdicts, shed, ShedIds(), false);
    }

    /** onEntry: Ceiling, then Tracked, Admit and Line, with anything in between.
        A line of a connection that the assembler held when it was asked is fed;
        a line is withheld only as one of a shed connection, or is counted as
        dropped. */
    method OnEntry(l: Line, parses: bool, now: int) returns (ghost o: Outcome)
      requires Valid()
      modifies asm, guard, guard.shed
      ensures Valid() && Fits(l, o) && (o.Unread? && parses ==> guard.droppedN == old(guard.droppedN) + 1)
      ensures o.Decided? && o.verdict.tracked ==> Fed(o)
      ensures !o.Unread? && !Fed(o) ==> if l.hasLogID then l.logID in ShedIds() else guard.droppedN > 0
      ensures asm.fed == old(asm.fed) + (if Fed(o) then [l] else [])
      ensures guard.verdicts == old(guard.verdicts) + Judged(o)
    {
      var under := guard.Ceiling(now);
      if !under || !parses {
        return Unread;
      }
      Interleave();
      if l.hasLogID {
        o := OnConnection(l, now);
      } else {
        o := OnAnonymous(l, now);
      }
    }

    /** A line without a log id is within the budget, or dropped and counted. */
    method OnAnonymous(l: Line, now: int) returns (ghost o: Outcome)
      requires Valid() && !l.hasLogID
      modifies asm, guard, guard.shed
      ensures Valid() && o.Anonymous? && (Fed(o) || guard.droppedN > 0)
      ensures asm.fed == old(asm.fed) + (if Fed(o) then [l] else []) && guard.verdicts == old(guard.verdicts)
    {
      var fed := AdmitAnonymous(l, now);
      o := Anonymous(fed);
      if fed {
        AnonymousPaired(guard.verdicts, asm.asked, asm.fed, l);
        Feed(l, asm.TrackedIds(), now);
      }
    }

    method AdmitAnonymous(l: Line, now: int) returns (fed: bool)
      requires Valid() && !l.hasLogID
      modifies guard, guard.shed
      ensures Valid() && guard.verdicts == old(guard.verdicts) && (fed || guard.droppedN > 0)
    {
      ghost var v := guard.verdicts;
      fed := guard.Admit(now, TraceShed.Line(false, l.logID, l.event.InboundFrom?), false);
      assert v + [] == v;
    }

    /** A line of a connection. */
    method OnConnection(l: Line, now: int) returns (ghost o: Outcome)
      requires Valid() && l.hasLogID
      modifies asm, guard, guard.shed
      ensures Valid() && o.Decided? && Fits(l, o) && (o.verdict.tracked ==> Fed(o))
      ensures !Fed(o) ==> l.logID in ShedIds()
      ensures asm.fed == old(asm.fed) + (if Fed(o) then [l] else [])
      ensures guard.verdicts == old(guard.verdicts) + [o.verdict]
    {
      ghost var v, asked, fed := guard.verdicts, asm.asked, asm.fed;
      var tracked, held := Ask(l.logID);
      var kept, e := Admit(l, tracked, held, now);
      o := Decided(e);
      OneMorePaired(v, e, asked, fed, l);
      if kept {
        Feed(l, asm.TrackedIds() + {l.logID}, now);
      }
    }

    /** Tracked, and anything that happens before its answer is used. */
    method Ask(id: nat) returns (tracked: bool, ghost held: set<nat>)
      requires Parts() && Settled()
      modifies asm, guard, guard.shed
      ensures Parts() && Settled() && asm.TrackedIds() <= held && tracked == (id in held)
      ensures Misplaced(guard.verdicts, held, true) == {}
      ensures asm.asked == old(asm.asked) + [(id, tracked)] && asm.fed == old(asm.fed)
      ensures guard.verdicts == old(guard.verdicts)
    {
      tracked := asm.IsTracked(id);
      held := asm.TrackedIds();
      Interleave();
    }

    /** Admit, on an answer that was true when it was given. */
    method Admit(l: Line, tracked: bool, ghost held: set<nat>, now: int)
      returns (kept: bool, ghost e: TraceShed.Verdict)
      requires Parts() && Settled() && l.hasLogID
      requires Misplaced(guard.verdicts, held, true) == {} && asm.TrackedIds() <= held && tracked == (l.logID in held)
      modifies guard, guard.shed
      ensures Parts() && Coherent(guard.verdicts) && guard.verdicts == old(guard.verdicts) + [e]
      ensures e.epoch == guard.epoch == old(guard.epoch)
      ensures guard.shed.history == old(guard.shed.history) + TraceShed.EventsOf(e)
      ensures Fits(l, Decided(e)) && e.tracked == tracked && (tracked ==> e.kept)
      ensures e.kept == kept && (kept <==> l.logID !in ShedIds())
      ensures Misplaced(guard.verdicts, if e.kept then asm.TrackedIds() + {l.logID} else asm.TrackedIds(), true) == {}
      ensures Misplaced(guard.verdicts, ShedIds(), false) == {}
    {
      ghost var v, shed := guard.verdicts, ShedIds();
      Apart(v, held, shed);
      assert forall x :: x in guard.shed.ids <==> guard.shed.Has(x);
      ghost var wasShed := guard.shed.Has(l.logID);
      kept := guard.Admit(now, TraceShed.Line(true, l.logID, l.event.InboundFrom?), tracked);
      assert forall x :: x in guard.shed.ids <==> guard.shed.Has(x);
      e := TraceShed.Verdict(l.logID, tracked, wasShed, l.event.InboundFrom?, kept, guard.epoch);
      TrueAnswer(v, held, shed, asm.TrackedIds(), ShedIds(), e);
    }

    /** A kept line reaches the assembler, after anything else happened. */
    method Feed(l: Line, ghost ids: set<nat>, now: int)
      requires Parts() && Coherent(guard.verdicts) && asm.TrackedIds() <= ids && (l.hasLogID ==> l.logID in ids)
      requires Misplaced(guard.verdicts, ids, true) == {} && Misplaced(guard.verdicts, ShedIds(), false) == {}
      modifies asm, guard, guard.shed
      ensures Parts() && Settled() && asm.asked == old(asm.asked) && asm.fed == old(asm.fed) + [l]
      ensures guard.verdicts == old(guard.verdicts)
    {
      ghost var shed := ShedIds();
      Others();
      asm.Line(l, now);
      FewerPlaced(guard.verdicts, ids, asm.TrackedIds(), true);
      FewerPlaced(guard.verdicts, shed, ShedIds(), false);
    }

    /** Any stream of entries, with any clock and any interference. At its end
        every tracked connection has been fed whole since it came to be tracked,
        and every shed one withheld whole since it was shed; the assembler was fed
        nothing but what the outcomes say; and no line of a shed connection was
        kept before an inbound-from line, a reset, or as many newer marks as the
        ring holds. */
    method Run(entries: seq<Line>) returns (ghost outcomes: seq<Outcome>)
      requires Valid()
      modifies asm, guard, guard.shed
      ensures Valid() && Explained(entries, outcomes, old(asm.fed), asm.fed, old(guard.verdicts), guard.verdicts)
      ensures forall x :: x in asm.TrackedIds() ==> Whole(guard.verdicts, x, true)
      ensures forall x :: x in ShedIds() ==> Whole(guard.verdicts, x, false)
      ensures ShedMarks.MarksLast(guard.verdicts, guard.shed.capacity)
    {
      outcomes := Feeds(entries);
      AllWhole();
      ShedIsSilent(guard.verdicts);
      ShedMarks.MarksLasted(guard.verdicts, guard.shed.capacity);
    }

    method Feeds(entries: seq<Line>) returns (ghost outcomes: seq<Outcome>)
      requires Valid()
      modifies asm, guard, guard.shed
      ensures Valid() && Explained(entries, outcomes, old(asm.fed), asm.fed, old(guard.verdicts), guard.verdicts)
    {
      outcomes := [];
      ExplainedMeans([], [], asm.fed, asm.fed, guard.verdicts, guard.verdicts);
      for i := 0 to |entries|
        invariant Valid()
        invariant Explained(entries[..i], outcomes, old(asm.fed), asm.fed, old(guard.verdicts), guard.verdicts)
      {
        outcomes := NextEntry(entries[..i], outcomes, old(asm.fed), old(guard.verdicts), entries[i]);
        assert entries[..i + 1] == entries[..i] + [entries[i]];
      }
      assert entries[..|entries|] == entries;
    }

    method NextEntry(ghost before: seq<Line>, ghost outcomes: seq<Outcome>, ghost fed: seq<Line>,
                     ghost v: seq<TraceShed.Verdict>, l: Line) returns (ghost outcomes': seq<Outcome>)
      requires Valid() && Explained(before, outcomes, fed, asm.fed, v, guard.verdicts)
      modifies asm, guard, guard.shed
      ensures Valid() && Explained(before + [l], outcomes', fed, asm.fed, v, guard.verdicts)
    {
      var now: int, parses: bool := *, *;
      Interleave();
      var o := OnEntry(l, parses, now);
      OneMoreExplained(before, outcomes, fed, old(asm.fed), v, old(guard.verdicts), l, o);
      outcomes' := outcomes + [o];
    }

    lemma AllWhole()
      requires Settled()
      ensures forall x :: x in asm.TrackedIds() ==> Whole(guard.verdicts, x, true)
      ensures forall x :: x in ShedIds() ==> Whole(guard.verdicts, x, false)
    {
      EachWhole(guard.verdicts, asm.TrackedIds(), true);
      EachWhole(guard.verdicts, ShedIds(), false);
    }
  }

  lemma ShedIsSilent(v: seq<TraceShed.Verdict>)
    requires Coherent(v)
    ensures forall i :: 0 <= i < |v| && v[i].shed && !v[i].inboundFrom ==> !v[i].kept
  {
    forall i | 0 <= i < |v| && v[i].shed && !v[i].inboundFrom ensures !v[i].kept {
      assert i !in Odd(v);
    }
  }

  lemma EachWhole(v: seq<TraceShed.Verdict>, ids: set<nat>, kept: bool)
    requires Coherent(v) && Misplaced(v, ids, kept) == {}
    ensures forall x :: x in ids ==> Whole(v, x, kept)
  {
    forall x | x in ids ensures Whole(v, x, kept) {
      Placed(v, ids, kept, x);
      Together(v, x, kept);
    }
  }

  /** One decision made on a true answer. */
  lemma TrueAnswer(v: seq<TraceShed.Verdict>, held: set<nat>, shed: set<nat>, tracked: set<nat>, shed': set<nat>,
                   e: TraceShed.Verdict)
    requires Coherent(v) && Misplaced(v, held, true) == {} && Misplaced(v, shed, false) == {}
    requires tracked <= held && shed' <= shed + {e.id} && (e.id in shed' <==> !e.kept)
    requires e.tracked == (e.id in held) && e.shed == (e.id in shed)
    requires (e.tracked ==> e.kept) && (e.shed && !e.inboundFrom ==> !e.kept)
    ensures Coherent(v + [e]) && Misplaced(v + [e], shed', false) == {}
    ensures Misplaced(v + [e], if e.kept then tracked + {e.id} else tracked, true) == {}
  {
    TrueAnswersFollow(v, held, shed, e);
    OneMoreCoherent(v, e);
    OneMorePlaced(v, shed, shed', e, false);
    OneMorePlaced(v, held, if e.kept then tracked + {e.id} else tracked, e, true);
  }
}
