/** What the sequence of admission decisions says about whole connections: from
    the line where a connection changed sides on, all its lines are on one side
    (cmd/lattice-agent/tracesource.go, internal/traceshed/guard.go). */
module Verdicts {
  import opened TraceShed

  /** The index of the last decision about id x, or -1. */
  ghost function Last(v: seq<Verdict>, x: nat): (k: int)
    ensures -1 <= k < |v| && (k >= 0 ==> v[k].id == x) && forall j :: k < j < |v| ==> v[j].id != x
  {
    if v == [] then -1 else if v[|v| - 1].id == x then |v| - 1 else Last(v[..|v| - 1], x)
  }

  /** The last line of x was kept, or the last line of x was withheld. */
  ghost predicate LastWas(v: seq<Verdict>, x: nat, kept: bool) {
    var k := Last(v, x);
    k >= 0 && v[k].kept == kept
  }

  /** Decision i agrees with the ones before it. A tracked connection is kept and
      its line before was; a shed one was withheld before, and is again unless a
      new connection reuses its id. */
  ghost predicate Follows(v: seq<Verdict>, i: nat)
    requires i < |v|
  {
    && (v[i].tracked ==> v[i].kept && LastWas(v[..i], v[i].id, true))
    && (v[i].shed ==> LastWas(v[..i], v[i].id, false) && (!v[i].inboundFrom ==> !v[i].kept))
  }

  ghost function Odd(v: seq<Verdict>): set<nat> {
    set i: nat | i < |v| && !Follows(v, i)
  }

  /** Every decision agrees with the ones before it. */
  ghost predicate Coherent(v: seq<Verdict>) {
    Odd(v) == {}
  }

  lemma OneMoreCoherent(v: seq<Verdict>, e: Verdict)
    requires Coherent(v) && Follows(v + [e], |v|)
    ensures Coherent(v + [e])
  {
    forall i: nat | i < |v| + 1 ensures i !in Odd(v + [e]) {
      if i < |v| {
        assert i !in Odd(v);
        assert (v + [e])[..i] == v[..i];
      }
    }
  }

  lemma FewerCoherent(v: seq<Verdict>, n: nat)
    requires Coherent(v) && n <= |v|
    ensures Coherent(v[..n])
  {
    forall i: nat | i < n ensures i !in Odd(v[..n]) {
      assert i !in Odd(v);
      assert v[..n][..i] == v[..i];
    }
  }

  lemma LastOneMore(v: seq<Verdict>, e: Verdict, x: nat)
    ensures Last(v + [e], x) == if e.id == x then |v| else Last(v, x)
  {
    assert (v + [e])[..|v|] == v;
  }

  /** The line found its connection on this side already: tracked, or shed and
      not the first line of a new connection. */
  predicate Bound(e: Verdict, kept: bool) {
    if kept then e.tracked else e.shed && !e.inboundFrom
  }

  /** The line where connection x came to a side for the last time, or -1: a
      function of the decisions alone. */
  ghost function Turn(v: seq<Verdict>, x: nat, kept: bool): (t: int)
    ensures -1 <= t < |v|
  {
    if v == [] then -1
    else if v[|v| - 1].id == x && !Bound(v[|v| - 1], kept) then |v| - 1
    else Turn(v[..|v| - 1], x, kept)
  }

  /** From its turning line on, that line included, every line of x is on that
      side, and found its connection there already. */
  ghost predicate Whole(v: seq<Verdict>, x: nat, kept: bool) {
    var t := Turn(v, x, kept);
    && 0 <= t < |v| && v[t].id == x && !Bound(v[t], kept)
    && forall j :: t <= j < |v| && v[j].id == x ==> v[j].kept == kept && (j > t ==> Bound(v[j], kept))
  }

  /** Whole connections: if x is on a side now, all its lines since it came to
      that side are on it. */
  lemma {:induction false} Together(v: seq<Verdict>, x: nat, kept: bool)
    requires Coherent(v) && LastWas(v, x, kept)
    ensures Whole(v, x, kept)
    decreases |v|
  {
    var n := |v| - 1;
    var e, front := v[n], v[..n];
    if e.id == x {
      assert n !in Odd(v);
      assert Follows(v, n);
    }
    if e.id != x || Bound(e, kept) {
      FewerCoherent(v, n);
      Together(front, x, kept);
      forall j | Turn(v, x, kept) <= j < |v| && v[j].id == x
        ensures v[j].kept == kept && (j > Turn(v, x, kept) ==> Bound(v[j], kept))
      {
        assert j == n || v[j] == front[j];
      }
    }
  }

  /** The ids whose last line was not on their side. The collector keeps it
      empty for the tracked ids and for the shed ones. */
  ghost function Misplaced(v: seq<Verdict>, ids: set<nat>, kept: bool): set<nat> {
    set x | x in ids && !LastWas(v, x, kept)
  }

  lemma Placed(v: seq<Verdict>, ids: set<nat>, kept: bool, x: nat)
    requires Misplaced(v, ids, kept) == {} && x in ids
    ensures LastWas(v, x, kept)
  {
    assert x !in Misplaced(v, ids, kept);
  }

  lemma FewerPlaced(v: seq<Verdict>, ids: set<nat>, fewer: set<nat>, kept: bool)
    requires Misplaced(v, ids, kept) == {} && fewer <= ids
    ensures Misplaced(v, fewer, kept) == {}
  {
    forall x | x in fewer ensures LastWas(v, x, kept) {
      Placed(v, ids, kept, x);
    }
  }

  /** One more decision, on an id that is on the side it falls on or on none. */
  lemma OneMorePlaced(v: seq<Verdict>, ids: set<nat>, ids': set<nat>, e: Verdict, kept: bool)
    requires Misplaced(v, ids, kept) == {} && ids' <= ids + {e.id} && (e.id in ids' ==> e.kept == kept)
    ensures Misplaced(v + [e], ids', kept) == {}
  {
    forall x | x in ids' ensures LastWas(v + [e], x, kept) {
      LastOneMore(v, e, x);
      if x != e.id {
        Placed(v, ids, kept, x);
      }
    }
  }

  /** No id is on both sides. */
  lemma Apart(v: seq<Verdict>, tracked: set<nat>, shed: set<nat>)
    requires Misplaced(v, tracked, true) == {} && Misplaced(v, shed, false) == {}
    ensures tracked !! shed
  {
    forall x | x in tracked ensures x !in shed {
      Placed(v, tracked, true, x);
      if x in shed {
        Placed(v, shed, false, x);
      }
    }
  }

  /** A new decision agrees with the ones before it if the answers it was made
      on were true. */
  lemma TrueAnswersFollow(v: seq<Verdict>, tracked: set<nat>, shed: set<nat>, e: Verdict)
    requires Misplaced(v, tracked, true) == {} && Misplaced(v, shed, false) == {}
    requires e.tracked ==> e.id in tracked && e.kept
    requires e.shed ==> e.id in shed && (!e.inboundFrom ==> !e.kept)
    ensures Follows(v + [e], |v|)
  {
    assert (v + [e])[..|v|] == v;
    if e.tracked {
      Placed(v, tracked, true, e.id);
    }
    if e.shed {
      Placed(v, shed, false, e.id);
    }
  }
}
