/** The trace collector's line budget, which sheds whole connections
    (internal/traceshed/guard.go). */
module TraceShed {

  /** What was done to the shed marks since they were last reset. */
  datatype Event = Mark(id: nat) | Clear(id: nat)

  /** The ids marked, in order, and for each id not cleared since the number,
      counted from 1, of its last mark. */
  datatype Ledger = Ledger(marks: seq<nat>, standing: map<nat, nat>)

  function After(l: Ledger, e: Event): Ledger {
    match e
    case Mark(id) => Ledger(l.marks + [id], l.standing[id := |l.marks| + 1])
    case Clear(id) => l.(standing := l.standing - {id})
  }

  function Replay(h: seq<Event>): Ledger {
    if h == [] then Ledger([], map[]) else After(Replay(h[..|h| - 1]), h[|h| - 1])
  }

  ghost predicate Sound(l: Ledger) {
    forall x :: x in l.standing ==> 0 < l.standing[x] <= |l.marks| && l.marks[l.standing[x] - 1] == x
  }

  /** x is among the last `capacity` marks and was not cleared since. */
  predicate Shed(l: Ledger, capacity: nat, x: nat) {
    x in l.standing && l.standing[x] + capacity > |l.marks|
  }

  /** One more event: the history grows at its end. */
  lemma ReplayOneMore(h: seq<Event>, e: Event)
    requires Sound(Replay(h))
    ensures Replay(h + [e]) == After(Replay(h), e) && Sound(Replay(h + [e]))
  {
    assert (h + [e])[..|h|] == h;
  }

  /** Event i marks x, fewer than `capacity` marks came since, and no clearing. */
  ghost predicate MarkStands(h: seq<Event>, capacity: nat, x: nat, i: nat)
    requires i < |h|
  {
    h[i] == Mark(x) && |Replay(h[i + 1..]).marks| < capacity && forall j :: i < j < |h| ==> h[j] != Clear(x)
  }

  /** Shed, as a statement about positions in the history. */
  lemma ShedMeans(h: seq<Event>, capacity: nat, x: nat)
    ensures Shed(Replay(h), capacity, x) <==> exists i :: 0 <= i < |h| && MarkStands(h, capacity, x, i)
  {
    if i :| 0 <= i < |h| && MarkStands(h, capacity, x, i) {
      StandingIsShed(h, capacity, x, i);
    }
    if Shed(Replay(h), capacity, x) {
      var _ := ShedStands(h, capacity, x);
    }
  }

  lemma StandingIsShed(h: seq<Event>, capacity: nat, x: nat, i: nat)
    requires i < |h| && MarkStands(h, capacity, x, i)
    ensures Shed(Replay(h), capacity, x)
  {
    StandsFrom(h, x, i);
  }

  lemma ShedStands(h: seq<Event>, capacity: nat, x: nat) returns (i: nat)
    requires Shed(Replay(h), capacity, x)
    ensures i < |h| && MarkStands(h, capacity, x, i)
  {
    i := StandingIndex(h, x);
    MarksSplit(h, i + 1);
  }

  lemma {:induction false} MarksSplit(h: seq<Event>, i: nat)
    requires i <= |h|
    ensures Replay(h).marks == Replay(h[..i]).marks + Replay(h[i..]).marks
  {
    if i == |h| {
      assert h[..i] == h;
    } else {
      var front := h[..|h| - 1];
      MarksSplit(front, i);
      assert front[..i] == h[..i];
      assert h[i..][..|h[i..]| - 1] == front[i..];
    }
  }

  lemma {:induction false} StandsFrom(h: seq<Event>, x: nat, i: nat)
    requires i < |h| && h[i] == Mark(x) && forall j :: i < j < |h| ==> h[j] != Clear(x)
    ensures x in Replay(h).standing && Replay(h).standing[x] + |Replay(h[i + 1..]).marks| >= |Replay(h).marks|
  {
    MarksSplit(h, i + 1);
    if i < |h| - 1 {
      var front := h[..|h| - 1];
      StandsFrom(front, x, i);
      MarksSplit(front, i + 1);
      assert h[i + 1..][..|h[i + 1..]| - 1] == front[i + 1..];
    }
  }

  lemma {:induction false} StandingIndex(h: seq<Event>, x: nat) returns (i: nat)
    requires x in Replay(h).standing
    ensures i < |h| && h[i] == Mark(x) && |Replay(h[..i + 1]).marks| == Replay(h).standing[x]
    ensures forall j :: i < j < |h| ==> h[j] != Clear(x)
  {
    var last := |h| - 1;
    if h[last] == Mark(x) {
      assert h[..last + 1] == h;
      return last;
    }
    i := StandingIndex(h[..last], x);
    assert h[..last][..i + 1] == h[..i + 1];
  }

  datatype Slot = Slot(id: nat, seqNo: nat)

  /** The number, from 0, of the mark that slot i of the ring holds when `m`
      marks were made and the oldest slot is at `pos`. */
  function SlotMark(m: nat, length: nat, pos: nat, i: nat): (n: nat)
    requires length <= m && pos <= length && i < length
    ensures m - length <= n < m
  {
    if i >= pos then m - length + (i - pos) else m - pos + i
  }

  function MarkSlot(marks: seq<nat>, base: nat, n: nat): Slot
    requires n < |marks|
  {
    Slot(marks[n], base + n + 1)
  }

  /** The ring holds the last `capacity` marks, whether cleared or not. */
  ghost predicate RingHolds(marks: seq<nat>, base: nat, capacity: nat, ring: seq<Slot>, pos: nat) {
    && |ring| == (if |marks| < capacity then |marks| else capacity)
    && (if |ring| < capacity then pos == 0 else pos < capacity)
    && forall i :: 0 <= i < |ring| ==> ring[i] == MarkSlot(marks, base, SlotMark(|marks|, |ring|, pos, i))
  }

  /** The map holds the shed ids, each under its standing mark. */
  ghost predicate MapHolds(l: Ledger, base: nat, capacity: nat, ids: map<nat, nat>) {
    && (forall x :: x in ids <==> Shed(l, capacity, x))
    && (forall x :: x in ids ==> ids[x] == base + l.standing[x])
  }

  /** Mark numbers of the other slots stay as the window moves on by one. */
  lemma SlotsMoveOn(m: nat, capacity: nat, pos: nat, i: nat)
    requires 0 < capacity <= m && pos < capacity && i < capacity
    ensures var next := (pos + 1) % capacity;
            && next < capacity
            && SlotMark(m + 1, capacity, next, i) == if i == pos then m else SlotMark(m, capacity, pos, i)
    ensures SlotMark(m, capacity, pos, pos) == m - capacity
  {
    assert (pos + 1) % capacity == if pos + 1 == capacity then 0 else pos + 1;
  }

  lemma OverwriteOldest(marks: seq<nat>, base: nat, capacity: nat, ring: seq<Slot>, pos: nat, id: nat)
    requires capacity > 0 && RingHolds(marks, base, capacity, ring, pos) && |ring| == capacity
    ensures ring[pos] == MarkSlot(marks, base, |marks| - capacity)
    ensures RingHolds(marks + [id], base, capacity, ring[pos := Slot(id, base + |marks| + 1)], (pos + 1) % capacity)
  {
    var next := (pos + 1) % capacity;
    var ring' := ring[pos := Slot(id, base + |marks| + 1)];
    SlotsMoveOn(|marks|, capacity, pos, pos);
    forall i | 0 <= i < capacity
      ensures ring'[i] == MarkSlot(marks + [id], base, SlotMark(|marks| + 1, capacity, next, i))
    {
      SlotsMoveOn(|marks|, capacity, pos, i);
    }
  }

  lemma FillNext(marks: seq<nat>, base: nat, capacity: nat, ring: seq<Slot>, id: nat)
    requires RingHolds(marks, base, capacity, ring, 0) && |ring| < capacity
    ensures RingHolds(marks + [id], base, capacity, ring + [Slot(id, base + |marks| + 1)], 0)
  {
  }

  /** Taking away the id of the slot that falls out of the window, if its mark
      is still that slot's, is exactly what one more mark calls for. */
  lemma EvictingKeepsMap(l: Ledger, base: nat, capacity: nat, ids: map<nat, nat>, oldest: Slot, id: nat)
    requires capacity > 0 && Sound(l) && MapHolds(l, base, capacity, ids)
    requires |l.marks| >= capacity && oldest == MarkSlot(l.marks, base, |l.marks| - capacity)
    ensures var kept := if oldest.id in ids && ids[oldest.id] == oldest.seqNo then ids - {oldest.id} else ids;
            MapHolds(After(l, Mark(id)), base, capacity, kept[id := base + |l.marks| + 1])
  {
  }

  lemma {:induction false} FewMembers(s: seq<nat>, ids: set<nat>)
    requires forall x :: x in ids ==> x in s
    ensures |ids| <= |s|
  {
    if s == [] {
      assert ids == {};
    } else {
      FewMembers(s[1..], ids - {s[0]});
    }
  }

  /** No more than `capacity` ids are remembered at once. */
  lemma ShedWithinCapacity(l: Ledger, base: nat, capacity: nat, ids: map<nat, nat>)
    requires Sound(l) && MapHolds(l, base, capacity, ids)
    ensures |ids| <= capacity
  {
    var marks := l.marks;
    var tail := if |marks| <= capacity then marks else marks[|marks| - capacity..];
    forall x | x in ids.Keys ensures x in tail {
      var n := l.standing[x];
      assert marks[n - 1] == x;
      if |marks| > capacity {
        assert tail[n - 1 - (|marks| - capacity)] == x;
      }
    }
    FewMembers(tail, ids.Keys);
    assert |ids| == |ids.Keys|;
  }

  /** shedRing: a map of marks and a ring of the slots they were added under. */
  class ShedRing {
    const capacity: nat
    var ids: map<nat, nat>
    var ring: seq<Slot>
    var pos: nat
    var seqNo: nat
    ghost var history: seq<Event>
    ghost var ledger: Ledger
    ghost var base: nat

    constructor (capacity: nat)
      requires capacity > 0
      ensures Valid() && history == [] && this.capacity == capacity
    {
      this.capacity := capacity;
      ids, ring, pos, seqNo := map[], [], 0, 0;
      history, ledger, base := [], Ledger([], map[]), 0;
    }

    ghost predicate Valid()
      reads this
    {
      && capacity > 0 && seqNo == base + |ledger.marks|
      && ledger == Replay(history) && Sound(ledger)
      && Kept()
    }

    predicate Has(id: nat)
      requires Valid()
      reads this
      ensures Has(id) <==> Shed(Replay(history), capacity, id)
    {
      id in ids
    }

    /** Evicting the oldest slot takes away exactly the mark that falls out of
        the window, never a newer mark of the same id. */
    method Add(id: nat)
      requires Valid()
      modifies this
      ensures Valid() && history == old(history) + [Mark(id)] && ledger == After(old(ledger), Mark(id))
    {
      ReplayOneMore(history, Mark(id));
      history := history + [Mark(id)];
      seqNo := seqNo + 1;
      var slot := Slot(id, seqNo);
      if |ring| < capacity {
        Fill(slot);
      } else {
        Overwrite(slot);
      }
    }

    /** The unfilled half of add. */
    method Fill(slot: Slot)
      requires Marking(slot) && |ring| < capacity
      modifies this`ring, this`ids, this`ledger
      ensures ledger == After(old(ledger), Mark(slot.id)) && Kept()
    {
      FillNext(ledger.marks, base, capacity, ring, slot.id);
      ring := ring + [slot];
      ids := ids[slot.id := slot.seqNo];
      ledger := After(ledger, Mark(slot.id));
    }

    /** The full half of add. */
    method Overwrite(slot: Slot)
      requires Marking(slot) && |ring| == capacity
      modifies this`ring, this`ids, this`pos, this`ledger
      ensures ledger == After(old(ledger), Mark(slot.id)) && Kept()
    {
      var oldest := ring[pos];
      OverwriteOldest(ledger.marks, base, capacity, ring, pos, slot.id);
      EvictingKeepsMap(ledger, base, capacity, ids, oldest, slot.id);
      var kept := if oldest.id in ids && ids[oldest.id] == oldest.seqNo then ids - {oldest.id} else ids;
      ring := ring[pos := slot];
      pos := (pos + 1) % capacity;
      ids := kept[slot.id := slot.seqNo];
      ledger := After(ledger, Mark(slot.id));
    }

    ghost predicate Kept()
      reads this
    {
      RingHolds(ledger.marks, base, capacity, ring, pos) && MapHolds(ledger, base, capacity, ids)
    }

    ghost predicate Marking(slot: Slot)
      reads this
    {
      capacity > 0 && Sound(ledger) && Kept() && slot.seqNo == seqNo == base + |ledger.marks| + 1
    }

    method Remove(id: nat)
      requires Valid()
      modifies this
      ensures Valid() && history == old(history) + [Clear(id)] && ledger == After(old(ledger), Clear(id))
    {
      ReplayOneMore(history, Clear(id));
      history := history + [Clear(id)];
      ids := ids - {id};
      ledger := After(ledger, Clear(id));
    }

    method Reset()
      requires Valid()
      modifies this
      ensures Valid() && history == []
    {
      ids, ring, pos := map[], [], 0;
      history, ledger, base := [], Ledger([], map[]), seqNo;
    }
  }

  /** singboxlog.Line, as far as admission looks at it. */
  datatype Line = Line(hasLogID: bool, logID: nat, inboundFrom: bool)

  const SECOND := 1_000_000_000
  const HARD_CEILING_FACTOR := 4

  /** A shed connection is silent unless a new one reuses its id; otherwise a
      tracked one is kept and an untracked one is kept within budget. */
  predicate Admitted(shed: bool, inboundFrom: bool, tracked: bool, over: bool) {
    !(shed && !inboundFrom) && (tracked || !over)
  }

  /** One decision about a line with a log id: what the caller said of the id,
      whether it was shed, whether the line was kept, and how often the marks had
      been reset before. */
  datatype Verdict = Verdict(id: nat, tracked: bool, shed: bool, inboundFrom: bool, kept: bool, epoch: nat)

  /** The decision clears the mark of its id: a new connection reuses it. */
  predicate Clears(e: Verdict) {
    e.shed && e.inboundFrom
  }

  /** The decision sheds its connection, which was not shed or just cleared. */
  predicate Marks(e: Verdict) {
    !e.kept && (!e.shed || e.inboundFrom)
  }

  /** What a decision does to the marks. */
  function EventsOf(e: Verdict): seq<Event> {
    (if Clears(e) then [Clear(e.id)] else []) + if Marks(e) then [Mark(e.id)] else []
  }

  /** What was done to the marks since reset number `epoch`. */
  ghost function History(v: seq<Verdict>, epoch: nat): seq<Event> {
    if v == [] then []
    else History(v[..|v| - 1], epoch) + if v[|v| - 1].epoch == epoch then EventsOf(v[|v| - 1]) else []
  }

  /** Decision i found its id shed exactly if the marks said so. */
  ghost predicate FoundRightly(v: seq<Verdict>, capacity: nat, i: nat)
    requires i < |v|
  {
    v[i].shed <==> Shed(Replay(History(v[..i], v[i].epoch)), capacity, v[i].id)
  }

  ghost predicate AllFoundRightly(v: seq<Verdict>, capacity: nat) {
    forall i :: 0 <= i < |v| ==> FoundRightly(v, capacity, i)
  }

  lemma OneMoreFound(v: seq<Verdict>, capacity: nat, e: Verdict)
    requires AllFoundRightly(v, capacity)
    requires e.shed <==> Shed(Replay(History(v, e.epoch)), capacity, e.id)
    ensures AllFoundRightly(v + [e], capacity)
    ensures History(v + [e], e.epoch) == History(v, e.epoch) + EventsOf(e)
  {
    assert (v + [e])[..|v|] == v;
    forall i | 0 <= i < |v| + 1 ensures FoundRightly(v + [e], capacity, i) {
      assert (v + [e])[..i] == v[..i];
      assert i < |v| ==> FoundRightly(v, capacity, i);
      assert i == |v| ==> v[..i] == v;
    }
  }

  lemma NothingAdded(v: seq<Verdict>, h: seq<Event>)
    ensures v + [] == v && h + [] == h
  {
  }

  lemma {:induction false} NothingSince(v: seq<Verdict>, epoch: nat)
    requires forall i :: 0 <= i < |v| ==> v[i].epoch < epoch
    ensures History(v, epoch) == []
  {
    if v != [] {
      NothingSince(v[..|v| - 1], epoch);
    }
  }

  class Guard {
    var budget: nat
    var windowStart: int
    var started: bool
    var entries: nat
    var parsed: nat
    const shed: ShedRing
    var shedN: nat
    var droppedN: nat
    /** Every decision Admit ever made about a line with a log id, and how often
        the marks were reset. */
    ghost var verdicts: seq<Verdict>
    ghost var epoch: nat

    ghost predicate Valid()
      reads this, shed
    {
      shed.Valid() && budget >= 1 && Remembers()
    }

    /** The marks are those of the decisions since the last reset, and every
        decision went by them. */
    ghost predicate Remembers()
      reads this`verdicts, this`epoch, shed`history
    {
      && shed.history == History(verdicts, epoch) && AllFoundRightly(verdicts, shed.capacity)
      && forall i :: 0 <= i < |verdicts| ==> verdicts[i].epoch <= epoch
    }

    constructor (budget: int, capacity: int)
      ensures Valid() && fresh(shed) && shed.history == [] && shedN == 0 && droppedN == 0 && verdicts == []
      ensures this.budget == (if budget < 1 then 1 else budget) && !started
      ensures shed.capacity == if capacity < 1 then 65536 else capacity
    {
      var room: nat := if capacity < 1 then 65536 else capacity;
      shed := new ShedRing(room);
      this.budget := if budget < 1 then 1 else budget;
      windowStart, started, entries, parsed, shedN, droppedN := 0, false, 0, 0, 0, 0;
      verdicts, epoch := [], 0;
    }

    method SetBudget(n: int)
      requires Valid()
      modifies this`budget
      ensures Valid() && budget == if n < 1 then 1 else n
    {
      budget := if n < 1 then 1 else n;
    }

    /** The one-second window that is running at this instant. */
    predicate InWindow(now: int)
      reads this`started, this`windowStart
    {
      started && windowStart <= now < windowStart + SECOND
    }

    /** One more line at this instant is over the budget of its second. */
    predicate Over(now: int)
      reads this`started, this`windowStart, this`parsed, this`budget
    {
      (if InWindow(now) then parsed else 0) >= budget
    }

    /** A clock that stepped back starts a new window too. */
    method Roll(now: int)
      modifies this`windowStart, this`started, this`entries, this`parsed
      ensures InWindow(now)
      ensures if old(InWindow(now))
              then windowStart == old(windowStart) && entries == old(entries) && parsed == old(parsed)
              else windowStart == now && entries == 0 && parsed == 0
    {
      if !started || now - windowStart >= SECOND || now < windowStart {
        windowStart, started := now, true;
        entries, parsed := 0, 0;
      }
    }

    /** Ceiling: cuts lines without regard to their connection, only past four
        times the budget, and counts each one. */
    method Ceiling(now: int) returns (pass: bool)
      requires Valid()
      modifies this`windowStart, this`started, this`entries, this`parsed, this`droppedN
      ensures Valid() && InWindow(now) && windowStart == (if old(InWindow(now)) then old(windowStart) else now)
      ensures entries == (if old(InWindow(now)) then old(entries) else 0) + 1
      ensures parsed == if old(InWindow(now)) then old(parsed) else 0
      ensures pass <==> entries <= budget * HARD_CEILING_FACTOR
      ensures droppedN == old(droppedN) + if pass then 0 else 1
    {
      Roll(now);
      entries := entries + 1;
      pass := entries <= budget * HARD_CEILING_FACTOR;
      if !pass {
        droppedN := droppedN + 1;
      }
    }

    /** Admit. A shed id stays silent until an inbound-from line clears it; a
        tracked id that is not shed is always kept; an untracked one is shed
        whole, once, when the second is over budget. A line without an id is
        only dropped over budget, and counted. */
    method Admit(now: int, l: Line, tracked: bool) returns (keep: bool)
      requires Valid()
      modifies this`windowStart, this`started, this`entries, this`parsed, this`shedN, this`droppedN, this`verdicts, shed
      ensures Valid() && InWindow(now) && windowStart == (if old(InWindow(now)) then old(windowStart) else now)
      ensures parsed == (if old(InWindow(now)) then old(parsed) else 0) + 1
      ensures entries == if old(InWindow(now)) then old(entries) else 0
      ensures verdicts == old(verdicts) +
        if l.hasLogID then [Verdict(l.logID, tracked, old(shed.Has(l.logID)), l.inboundFrom, keep, epoch)] else []
      ensures shed.history == old(shed.history) +
        if l.hasLogID then EventsOf(verdicts[|old(verdicts)|]) else []
      ensures l.hasLogID ==>
        && droppedN == old(droppedN)
        && keep == Admitted(old(shed.Has(l.logID)), l.inboundFrom, tracked, parsed > budget)
        && shed.Has(l.logID) == !keep
        && shedN == old(shedN) + (if keep || (old(shed.Has(l.logID)) && !l.inboundFrom) then 0 else 1)
        && forall x :: x != l.logID ==> shed.Has(x) ==> old(shed.Has(x))
      ensures !l.hasLogID ==>
        && keep == (parsed <= budget)
        && shed.ids == old(shed.ids)
        && shedN == old(shedN) && droppedN == old(droppedN) + if keep then 0 else 1
    {
      var over := CountParsed(now);
      if l.hasLogID {
        keep := AdmitConnection(l, tracked, over);
      } else {
        keep := !over;
        if over {
          droppedN := droppedN + 1;
        }
        NothingAdded(verdicts, shed.history);
      }
    }

    /** One more parsed line in its second. */
    method CountParsed(now: int) returns (over: bool)
      requires Valid()
      modifies this`windowStart, this`started, this`entries, this`parsed
      ensures Valid() && InWindow(now) && windowStart == (if old(InWindow(now)) then old(windowStart) else now)
      ensures parsed == (if old(InWindow(now)) then old(parsed) else 0) + 1
      ensures entries == if old(InWindow(now)) then old(entries) else 0
      ensures over == (parsed > budget)
    {
      Roll(now);
      parsed := parsed + 1;
      over := parsed > budget;
    }

    /** The connection half of Admit. */
    method AdmitConnection(l: Line, tracked: bool, over: bool) returns (keep: bool)
      requires Valid()
      modifies this`shedN, this`verdicts, shed
      ensures Valid()
      ensures keep == Admitted(old(shed.Has(l.logID)), l.inboundFrom, tracked, over)
      ensures shed.Has(l.logID) == !keep
      ensures verdicts == old(verdicts) +
        [Verdict(l.logID, tracked, old(shed.Has(l.logID)), l.inboundFrom, keep, epoch)]
      ensures shed.history == old(shed.history) + EventsOf(verdicts[|old(verdicts)|])
      ensures shedN == old(shedN) + if keep || (old(shed.Has(l.logID)) && !l.inboundFrom) then 0 else 1
      ensures forall x :: x != l.logID ==> shed.Has(x) ==> old(shed.Has(x))
    {
      ghost var v, wasShed := verdicts, shed.Has(l.logID);
      keep := Decide(l, tracked, over);
      ghost var e := Verdict(l.logID, tracked, wasShed, l.inboundFrom, keep, epoch);
      OneMoreFound(v, shed.capacity, e);
      verdicts := v + [e];
    }

    /** Who is kept, and what that does to the marks. */
    method Decide(l: Line, tracked: bool, over: bool) returns (keep: bool)
      requires shed.Valid()
      modifies this`shedN, shed
      ensures shed.Valid()
      ensures keep == Admitted(old(shed.Has(l.logID)), l.inboundFrom, tracked, over)
      ensures shed.Has(l.logID) == !keep
      ensures shed.history == old(shed.history) +
        EventsOf(Verdict(l.logID, tracked, old(shed.Has(l.logID)), l.inboundFrom, keep, epoch))
      ensures shedN == old(shedN) + if keep || (old(shed.Has(l.logID)) && !l.inboundFrom) then 0 else 1
      ensures forall x :: x != l.logID ==> shed.Has(x) ==> old(shed.Has(x))
    {
      if shed.Has(l.logID) {
        if !l.inboundFrom {
          return false;
        }
        shed.Remove(l.logID);
      }
      if tracked {
        return true;
      }
      if over {
        shed.Add(l.logID);
        shedN := shedN + 1;
        return false;
      }
      return true;
    }

    /** Reset: the core restarted and its ids mean nothing any more. */
    method Reset()
      requires Valid()
      modifies shed, this`epoch
      ensures Valid() && epoch == old(epoch) + 1 && forall x :: !shed.Has(x)
    {
      NothingSince(verdicts, epoch + 1);
      shed.Reset();
      epoch := epoch + 1;
    }

    method Take() returns (shedCount: nat, droppedLines: nat)
      requires Valid()
      modifies this`shedN, this`droppedN
      ensures Valid() && shedCount == old(shedN) && droppedLines == old(droppedN) && shedN == 0 && droppedN == 0
    {
      shedCount, droppedLines := shedN, droppedN;
      shedN, droppedN := 0, 0;
    }
  }
}
