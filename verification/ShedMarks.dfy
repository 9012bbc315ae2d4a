/** How long a shed mark lasts, told by the decisions alone: until an
    inbound-from line of its id, a reset of the marks, or as many newer marks as
    the ring holds (internal/traceshed/guard.go). */
module ShedMarks {
  import opened TraceShed

  /** The decisions after j and before i that shed a connection, since reset
      number `epoch`. */
  ghost function MarksAmong(v: seq<Verdict>, epoch: nat, j: int, i: nat): set<int>
    requires i <= |v|
  {
    set k | 0 <= k && j < k < i && v[k].epoch == epoch && Marks(v[k])
  }

  /** Decision j shed x in this epoch, and none before i cleared it. */
  ghost predicate Uncleared(v: seq<Verdict>, epoch: nat, x: nat, j: nat, i: nat)
    requires i <= |v|
  {
    && j < i && v[j].epoch == epoch && v[j].id == x && Marks(v[j])
    && forall k :: j < k < i && v[k].epoch == epoch && v[k].id == x ==> !Clears(v[k])
  }

  /** The mark that decision j made still stands at decision i: it is one of the
      last `capacity` marks since the last reset, and was not cleared. */
  ghost predicate Stands(v: seq<Verdict>, capacity: nat, j: nat, i: nat)
    requires i < |v|
  {
    Uncleared(v, v[i].epoch, v[i].id, j, i) && |MarksAmong(v, v[i].epoch, j, i)| < capacity
  }

  /** The marks after the first n decisions. */
  ghost function LedgerAt(v: seq<Verdict>, epoch: nat, n: nat): Ledger
    requires n <= |v|
  {
    Replay(History(v[..n], epoch))
  }

  /** One more decision applies its events. */
  lemma LedgerOneMore(v: seq<Verdict>, epoch: nat, n: nat)
    requires n < |v|
    ensures var l, e := LedgerAt(v, epoch, n), v[n];
            var cleared := if Clears(e) then After(l, Clear(e.id)) else l;
            LedgerAt(v, epoch, n + 1) ==
              if e.epoch != epoch then l else if Marks(e) then After(cleared, Mark(e.id)) else cleared
  {
    var e, h := v[n], History(v[..n], epoch);
    assert v[..n + 1][..n] == v[..n];
    if e.epoch != epoch || !(Clears(e) || Marks(e)) {
      assert h + [] == h;
    } else if Clears(e) {
      ReplayAppends(h, Clear(e.id));
      if Marks(e) {
        ReplayAppends(h + [Clear(e.id)], Mark(e.id));
        assert h + [Clear(e.id)] + [Mark(e.id)] == h + EventsOf(e);
      }
    } else {
      ReplayAppends(h, Mark(e.id));
    }
  }

  lemma ReplayAppends(h: seq<Event>, e: Event)
    ensures Replay(h + [e]) == After(Replay(h), e)
  {
    assert (h + [e])[..|h|] == h;
  }

  lemma MarksOneMore(v: seq<Verdict>, epoch: nat, j: int, n: nat)
    requires -1 <= j < n < |v|
    ensures |MarksAmong(v, epoch, j, n + 1)| ==
            |MarksAmong(v, epoch, j, n)| + if v[n].epoch == epoch && Marks(v[n]) then 1 else 0
  {
    assert MarksAmong(v, epoch, j, n + 1) ==
           MarksAmong(v, epoch, j, n) + if v[n].epoch == epoch && Marks(v[n]) then {n} else {};
  }

  /** A mark that was not cleared stands in the ledger, under its own number or a
      newer one. */
  lemma {:induction false} UnclearedStands(v: seq<Verdict>, epoch: nat, x: nat, j: nat, n: nat)
    requires n <= |v| && Uncleared(v, epoch, x, j, n)
    ensures var l := LedgerAt(v, epoch, n);
            x in l.standing && l.standing[x] + |MarksAmong(v, epoch, j, n)| >= |l.marks|
    decreases n
  {
    LedgerOneMore(v, epoch, n - 1);
    if j == n - 1 {
      assert MarksAmong(v, epoch, j, n) == {};
    } else {
      UnclearedStands(v, epoch, x, j, n - 1);
      MarksOneMore(v, epoch, j, n - 1);
    }
  }

  /** What stands in the ledger is an uncleared mark. */
  lemma {:induction false} StandingUncleared(v: seq<Verdict>, epoch: nat, x: nat, n: nat) returns (j: nat)
    requires n <= |v| && x in LedgerAt(v, epoch, n).standing
    ensures Uncleared(v, epoch, x, j, n)
    ensures var l := LedgerAt(v, epoch, n); l.standing[x] + |MarksAmong(v, epoch, j, n)| == |l.marks|
    decreases n
  {
    var last := n - 1;
    LedgerOneMore(v, epoch, last);
    if v[last].epoch == epoch && v[last].id == x && Marks(v[last]) {
      j := last;
      assert MarksAmong(v, epoch, j, n) == {};
    } else {
      j := StandingUncleared(v, epoch, x, last);
      MarksOneMore(v, epoch, j, last);
    }
  }

  /** A decision finds its id shed if and only if a mark of it still stands. */
  lemma ShedWhileStanding(v: seq<Verdict>, capacity: nat, i: nat)
    requires i < |v| && FoundRightly(v, capacity, i)
    ensures v[i].shed <==> exists j: nat :: Stands(v, capacity, j, i)
  {
    var epoch, x := v[i].epoch, v[i].id;
    var l := LedgerAt(v, epoch, i);
    if j: nat :| Stands(v, capacity, j, i) {
      UnclearedStands(v, epoch, x, j, i);
    }
    if v[i].shed {
      var j := StandingUncleared(v, epoch, x, i);
      assert Stands(v, capacity, j, i);
    }
  }

  /** No line of x after j, up to and with i, begins a new connection. */
  ghost predicate NoneBegins(v: seq<Verdict>, x: nat, j: nat, i: nat)
    requires i < |v|
  {
    forall k :: j < k <= i && v[k].id == x ==> !v[k].inboundFrom
  }

  /** Decision j shed a connection, and at decision i it is still the same one,
      its marks were not reset, and the ring did not overflow since. */
  ghost predicate StillShed(v: seq<Verdict>, capacity: nat, j: nat, i: nat)
    requires i < |v|
  {
    && j < i && Marks(v[j]) && v[j].id == v[i].id && v[j].epoch == v[i].epoch
    && NoneBegins(v, v[i].id, j, i) && |MarksAmong(v, v[i].epoch, j, i)| < capacity
  }

  /** A shed connection is silent: none of its lines is kept until an
      inbound-from line, a reset, or eviction from the ring. */
  lemma StaysSilent(v: seq<Verdict>, capacity: nat, j: nat, i: nat)
    requires i < |v| && FoundRightly(v, capacity, i) && StillShed(v, capacity, j, i)
    requires v[i].shed && !v[i].inboundFrom ==> !v[i].kept
    ensures v[i].shed && !v[i].kept
  {
    assert Stands(v, capacity, j, i);
    ShedWhileStanding(v, capacity, i);
  }

  /** Every decision found its id shed exactly while a mark of it stood, and no
      line of a connection that is still shed was kept. */
  ghost predicate MarksLast(v: seq<Verdict>, capacity: nat) {
    && (forall i: nat :: i < |v| ==> (v[i].shed <==> exists j: nat :: Stands(v, capacity, j, i)))
    && (forall j: nat, i: nat :: i < |v| && StillShed(v, capacity, j, i) ==> v[i].shed && !v[i].kept)
  }

  lemma MarksLasted(v: seq<Verdict>, capacity: nat)
    requires AllFoundRightly(v, capacity)
    requires forall i :: 0 <= i < |v| && v[i].shed && !v[i].inboundFrom ==> !v[i].kept
    ensures MarksLast(v, capacity)
  {
    forall i: nat | i < |v| ensures v[i].shed <==> exists j: nat :: Stands(v, capacity, j, i) {
      assert FoundRightly(v, capacity, i);
      ShedWhileStanding(v, capacity, i);
    }
    forall j: nat, i: nat | i < |v| && StillShed(v, capacity, j, i) ensures v[i].shed && !v[i].kept {
      assert FoundRightly(v, capacity, i);
      StaysSilent(v, capacity, j, i);
    }
  }
}
