/** Where the results that leave the machine come from: a run, a transaction, an
    interrupted run, or a lease that could not be journaled
    (cmd/lattice-agent/main.go). */
module Provenance {
  import opened Common
  import opened Tasks
  import opened TaskProtocol
  import Outbox = TaskOutbox
  import Chain = Linechain

  /** The result is the outcome of a run. */
  ghost predicate Ran(outcomes: seq<TaskResult>, r: TaskResult) {
    exists i :: 0 <= i < |outcomes| && Chain.Stamped(outcomes[i], r)
  }

  /** The result is the one a transaction was settled with. */
  ghost predicate Transacted(booked: seq<Chain.Settlement>, r: TaskResult) {
    exists i :: 0 <= i < |booked| && booked[i].result == r
  }

  /** The lease could not be journaled and its script never started. */
  predicate Unexecuted(starts: seq<Key>, r: TaskResult) {
    r.exitCode == -1 && r.error == NotJournaled && r.key !in starts
  }

  ghost predicate Known(outcomes: seq<TaskResult>, booked: seq<Chain.Settlement>, r: TaskResult) {
    Ran(outcomes, r) || Transacted(booked, r) || Outbox.UnknownOutcome(r)
  }

  ghost predicate ReceivedKnown(h: History, booked: seq<Chain.Settlement>) {
    forall i :: 0 <= i < |h.received| ==>
      Known(h.outcomes, booked, h.received[i]) || Unexecuted(h.starts, h.received[i])
  }

  /** Every completed entry that may surface holds such a result. */
  ghost predicate EntriesKnown(o: Outbox.Disk, h: History, booked: seq<Chain.Settlement>) {
    forall q, v :: v in Outbox.Survivors(o, q) && v.Some? && v.value.state.Completed? ==>
      Known(h.outcomes, booked, v.value.state.result)
  }

  ghost predicate JournalsBooked(c: Chain.Disk, booked: seq<Chain.Settlement>) {
    forall k :: k in c.journals && c.journals[k].result.Some? ==> Transacted(booked, c.journals[k].result.value)
  }

  /** Every settlement is justified, by the outcome of a real run if by any. */
  ghost predicate SettlementsJustified(h: History, booked: seq<Chain.Settlement>) {
    forall i :: 0 <= i < |booked| ==>
      Chain.Justified(booked[i]) && (booked[i].ran.Some? ==> booked[i].ran.value in h.outcomes)
  }

  datatype Trace = OfReceived | OfEntries | OfJournals | OfSettlements

  ghost predicate Leads(t: Trace, o: Outbox.Disk, c: Chain.Disk, h: History, booked: seq<Chain.Settlement>) {
    match t
    case OfReceived => ReceivedKnown(h, booked)
    case OfEntries => EntriesKnown(o, h, booked)
    case OfJournals => JournalsBooked(c, booked)
    case OfSettlements => SettlementsJustified(h, booked)
  }

  ghost function Untraced(o: Outbox.Disk, c: Chain.Disk, h: History, booked: seq<Chain.Settlement>): set<Trace> {
    set t: Trace | !Leads(t, o, c, h, booked)
  }

  /** Every result, received or still to be sent, can be traced to its source. */
  ghost predicate Traced(o: Outbox.Disk, c: Chain.Disk, h: History, booked: seq<Chain.Settlement>) {
    Untraced(o, c, h, booked) == {}
  }

  lemma TracedMeans(o: Outbox.Disk, c: Chain.Disk, h: History, booked: seq<Chain.Settlement>)
    ensures Traced(o, c, h, booked) <==>
      && ReceivedKnown(h, booked) && EntriesKnown(o, h, booked)
      && JournalsBooked(c, booked) && SettlementsJustified(h, booked)
  {
    var untraced := Untraced(o, c, h, booked);
    assert OfReceived in untraced <==> !ReceivedKnown(h, booked);
    assert OfEntries in untraced <==> !EntriesKnown(o, h, booked);
    assert OfJournals in untraced <==> !JournalsBooked(c, booked);
    assert OfSettlements in untraced <==> !SettlementsJustified(h, booked);
  }

  /** More outcomes and settlements explain no less. */
  lemma StillKnown(outcomes: seq<TaskResult>, outcomes': seq<TaskResult>, booked: seq<Chain.Settlement>,
                   booked': seq<Chain.Settlement>, r: TaskResult)
    requires outcomes <= outcomes' && booked <= booked'
    ensures Ran(outcomes, r) ==> Ran(outcomes', r)
    ensures Transacted(booked, r) ==> Transacted(booked', r)
    ensures Known(outcomes, booked, r) ==> Known(outcomes', booked', r)
  {
    if Ran(outcomes, r) {
      var i :| 0 <= i < |outcomes| && Chain.Stamped(outcomes[i], r);
      assert Chain.Stamped(outcomes'[i], r);
    }
    if Transacted(booked, r) {
      var i :| 0 <= i < |booked| && booked[i].result == r;
      assert booked'[i].result == r;
    }
  }

  /** The outbox changed: what may surface anew is an unfinished lease or known. */
  lemma OutboxTraced(o: Outbox.Disk, o': Outbox.Disk, c: Chain.Disk, h: History, booked: seq<Chain.Settlement>)
    requires Traced(o, c, h, booked)
    requires forall q, v :: v in Outbox.Survivors(o', q) && v !in Outbox.Survivors(o, q) && v.Some? ==>
      v.value.state.Completed? ==> Known(h.outcomes, booked, v.value.state.result)
    ensures Traced(o', c, h, booked)
  {
    TracedMeans(o, c, h, booked);
    TracedMeans(o', c, h, booked);
  }

  lemma NarrowingTraced(o: Outbox.Disk, o': Outbox.Disk, c: Chain.Disk, h: History, booked: seq<Chain.Settlement>)
    requires Traced(o, c, h, booked) && Outbox.Narrows(o, o')
    ensures Traced(o', c, h, booked)
  {
    forall q, v | v in Outbox.Survivors(o', q) ensures v in Outbox.Survivors(o, q) {
      assert Outbox.Survivors(o', q) <= Outbox.Survivors(o, q);
    }
    OutboxTraced(o, o', c, h, booked);
  }

  lemma RecoveryTraced(o: Outbox.Disk, o': Outbox.Disk, c: Chain.Disk, h: History, booked: seq<Chain.Settlement>)
    requires Traced(o, c, h, booked) && Outbox.OnlyCompletesInterrupted(o, o')
    ensures Traced(o', c, h, booked)
  {
    forall q, v | v in Outbox.Survivors(o', q) && v !in Outbox.Survivors(o, q)
      ensures v.Some? && v.value.state.Completed? && Outbox.UnknownOutcome(v.value.state.result)
    {
      assert Outbox.CompletesInterrupted(o, q, v);
    }
    OutboxTraced(o, o', c, h, booked);
  }

  /** One file got at most this content. */
  lemma EntryTraced(o: Outbox.Disk, o': Outbox.Disk, c: Chain.Disk, h: History, booked: seq<Chain.Settlement>, k: Key,
                    v: Option<Outbox.Entry>)
    requires Traced(o, c, h, booked) && Outbox.AtMostAdds(o, o', k, v)
    requires v.Some? && v.value.state.Completed? ==> Known(h.outcomes, booked, v.value.state.result)
    ensures Traced(o', c, h, booked)
  {
    forall q, w | w in Outbox.Survivors(o', q) && w !in Outbox.Survivors(o, q) ensures w == v {
    }
    OutboxTraced(o, o', c, h, booked);
  }

  /** A result that the outbox holds is known. */
  lemma HeldKnown(o: Outbox.Disk, c: Chain.Disk, h: History, booked: seq<Chain.Settlement>, r: TaskResult)
    requires Traced(o, c, h, booked) && Outbox.Holds(o, r)
    ensures Known(h.outcomes, booked, r)
  {
    TracedMeans(o, c, h, booked);
    assert Outbox.Current(o, r.key) in Outbox.Survivors(o, r.key);
  }

  /** So is one that a journal holds. */
  lemma JournaledKnown(o: Outbox.Disk, c: Chain.Disk, h: History, booked: seq<Chain.Settlement>, k: Key)
    requires Traced(o, c, h, booked) && k in c.journals && c.journals[k].result.Some?
    ensures Transacted(booked, c.journals[k].result.value)
  {
    TracedMeans(o, c, h, booked);
  }

  lemma ReceiveTraced(o: Outbox.Disk, c: Chain.Disk, h: History, booked: seq<Chain.Settlement>, r: TaskResult)
    requires Traced(o, c, h, booked) && (Known(h.outcomes, booked, r) || Unexecuted(h.starts, r))
    ensures Traced(o, c, h.(received := h.received + [r]), booked)
  {
    TracedMeans(o, c, h, booked);
    TracedMeans(o, c, h.(received := h.received + [r]), booked);
  }

  /** A script starts that no result was received for. */
  lemma StartTraced(o: Outbox.Disk, c: Chain.Disk, h: History, booked: seq<Chain.Settlement>, k: Key)
    requires Traced(o, c, h, booked) && !Acked(h, k)
    ensures Traced(o, c, h.(starts := h.starts + [k]), booked)
  {
    TracedMeans(o, c, h, booked);
    TracedMeans(o, c, h.(starts := h.starts + [k]), booked);
  }

  /** A run ends. */
  lemma OutcomeTraced(o: Outbox.Disk, c: Chain.Disk, h: History, booked: seq<Chain.Settlement>, ran: TaskResult)
    requires Traced(o, c, h, booked)
    ensures Traced(o, c, h.(outcomes := h.outcomes + [ran]), booked) && Ran(h.outcomes + [ran], ran)
  {
    var more := h.outcomes + [ran];
    TracedMeans(o, c, h, booked);
    TracedMeans(o, c, h.(outcomes := more), booked);
    assert Chain.Stamped(more[|h.outcomes|], ran);
    forall r ensures Known(h.outcomes, booked, r) ==> Known(more, booked, r) {
      StillKnown(h.outcomes, more, booked, booked, r);
    }
  }

  /** At most one transaction was settled, and journals may be gone. */
  lemma ChainTraced(o: Outbox.Disk, c: Chain.Disk, c': Chain.Disk, h: History, booked: seq<Chain.Settlement>,
                    booked': seq<Chain.Settlement>)
    requires Traced(o, c, h, booked) && booked <= booked'
    requires forall i :: |booked| <= i < |booked'| ==>
      Chain.Justified(booked'[i]) && (booked'[i].ran.Some? ==> booked'[i].ran.value in h.outcomes)
    requires forall k :: k in c'.journals && c'.journals[k].result.Some? ==>
      || (k in c.journals && c'.journals[k].result == c.journals[k].result)
      || Transacted(booked', c'.journals[k].result.value)
    ensures Traced(o, c', h, booked')
  {
    TracedMeans(o, c, h, booked);
    TracedMeans(o, c', h, booked');
    forall r ensures Transacted(booked, r) ==> Transacted(booked', r)
      ensures Known(h.outcomes, booked, r) ==> Known(h.outcomes, booked', r)
    {
      StillKnown(h.outcomes, h.outcomes, booked, booked', r);
    }
  }

  /** What is received for a lease whose run ended as `ran`, with transactions
      settled since `from`: the run's own failure, or the result its transaction
      was settled with, either by that run or before it ended. */
  ghost predicate AnswersRun(ran: TaskResult, r: TaskResult, booked: seq<Chain.Settlement>, from: nat) {
    (Chain.Stamped(ran, r) && !Chain.Clean(ran)) || exists i :: from <= i < |booked| && SettledBy(booked[i], ran, r)
  }

  ghost predicate SettledBy(x: Chain.Settlement, ran: TaskResult, r: TaskResult) {
    x.result == r && x.ran in {None, Some(ran)} && Chain.Justified(x)
  }

  lemma AnswersKnown(outcomes: seq<TaskResult>, ran: TaskResult, r: TaskResult, booked: seq<Chain.Settlement>,
                     from: nat)
    requires AnswersRun(ran, r, booked, from) && ran in outcomes
    ensures Ran(outcomes, r) || Transacted(booked, r)
  {
    if Chain.Stamped(ran, r) {
      var i :| 0 <= i < |outcomes| && outcomes[i] == ran;
      assert Chain.Stamped(outcomes[i], r);
    } else {
      var i :| from <= i < |booked| && SettledBy(booked[i], ran, r);
    }
  }

  /** Before anything happened. */
  lemma NothingTraced(files: map<string, string>)
    ensures Traced(Outbox.Disk(map[], map[]), Chain.Disk(files, map[], map[], map[]), History([], [], []), [])
  {
    TracedMeans(Outbox.Disk(map[], map[]), Chain.Disk(files, map[], map[], map[]), History([], [], []), []);
  }

  /** A failed run is reported as a success only if its journal held that result
      before the run ended, from a recovery that found the verified pair in place
      and the service active. */
  lemma FailureReported(ran: TaskResult, r: TaskResult, booked: seq<Chain.Settlement>, from: nat)
    requires AnswersRun(ran, r, booked, from) && !Chain.Clean(ran) && Chain.Clean(r)
    ensures exists i :: from <= i < |booked| && booked[i].result == r && booked[i].ran == None &&
                        booked[i].phase == Chain.DesiredVerified && booked[i].desired && booked[i].checks == [true]
  {
    var i :| from <= i < |booked| && SettledBy(booked[i], ran, r);
    if booked[i].ran == Some(ran) {
      Chain.FailureNotHidden(booked[i]);
    }
  }
}
