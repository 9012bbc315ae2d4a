/** Two log streams that overlap while the level changes: a line may then be
    decided on with an answer that is no longer true
    (cmd/lattice-agent/tracesource.go). */
module Overlap {
  import opened SessionConn
  import SessionAsm
  import TraceShed

  /** No connection is both tracked and shed. */
  ghost predicate Apart(asm: SessionAsm.Assembler, guard: TraceShed.Guard)
    reads asm, guard, guard.shed
  {
    asm.TrackedIds() !! guard.shed.ids.Keys
  }

  /** Admit, with whatever answer a stream still holds. It tears a connection
      apart exactly when that answer says "not tracked" of an id that is tracked
      by now, and the second is over budget. */
  method AdmitOn(asm: SessionAsm.Assembler, guard: TraceShed.Guard, l: Line, answer: bool, now: int)
    returns (kept: bool)
    requires asm.Valid() && guard.Valid() && Apart(asm, guard)
    modifies guard, guard.shed
    ensures asm.Valid() && guard.Valid()
    ensures Apart(asm, guard) <==>
      !(l.hasLogID && l.logID in asm.TrackedIds() && !answer && old(guard.Over(now)))
  {
    ghost var shed := guard.shed.ids.Keys;
    assert forall x :: x in guard.shed.ids <==> guard.shed.Has(x);
    kept := guard.Admit(now, TraceShed.Line(l.hasLogID, l.logID, l.event.InboundFrom?), answer);
    assert forall x :: x in guard.shed.ids <==> guard.shed.Has(x);
  }

  /** Line, with whatever decision a stream still holds. It tears a connection
      apart exactly when the id was shed since. */
  method FeedOn(asm: SessionAsm.Assembler, guard: TraceShed.Guard, l: Line, now: int)
    requires asm.Valid() && guard.Valid() && Apart(asm, guard)
    modifies asm
    ensures asm.Valid() && guard.Valid()
    ensures Apart(asm, guard) <==> !(l.hasLogID && guard.shed.Has(l.logID))
    ensures l.hasLogID ==> l.logID in asm.TrackedIds()
  {
    assert forall x :: x in guard.shed.ids <==> guard.shed.Has(x);
    asm.Line(l, now);
  }

  /** A new connection is admitted, and uses up a budget of one. */
  method AdmitFirst(guard: TraceShed.Guard, l: Line, now: int)
    requires guard.Valid() && l.hasLogID && guard.budget == 1 && !guard.Over(now) && guard.shed.ids == map[]
    modifies guard, guard.shed
    ensures guard.Valid() && guard.shed.ids == map[] && guard.Over(now)
  {
    assert forall x :: x in guard.shed.ids <==> guard.shed.Has(x);
    var _ := guard.Admit(now, TraceShed.Line(true, l.logID, l.event.InboundFrom?), false);
    assert forall x :: x in guard.shed.ids <==> guard.shed.Has(x);
  }

  /** With a budget of one line a second: the stream that was cancelled asks
      about a connection and hears no; the new stream is admitted with the first
      line and feeds it; then the cancelled one offers its own line. The
      connection ends up tracked and shed. */
  method TornApart(opts: Options, classify: string -> Reason, first: Line, late: Line, now: int)
    returns (asm: SessionAsm.Assembler, guard: TraceShed.Guard)
    requires opts.maxOpen > 0 && opts.stallQuiet > 0
    requires first.hasLogID && late.hasLogID && first.logID == late.logID
    ensures asm.Valid() && guard.Valid() && !Apart(asm, guard)
  {
    asm := new SessionAsm.Assembler(opts, classify);
    guard := new TraceShed.Guard(1, 0);
    var answer := asm.IsTracked(late.logID);
    assert forall x :: x in guard.shed.ids <==> guard.shed.Has(x);
    AdmitFirst(guard, first, now);
    FeedOn(asm, guard, first, now);
    var _ := AdmitOn(asm, guard, late, answer, now);
  }
}
