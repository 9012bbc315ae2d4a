/** Lines per second over the last ten whole seconds, from an eleven-slot ring
    (cmd/lattice-agent/tracesource.go). */
module LineRate {

  const WINDOW := 10
  const SLOTS := WINDOW + 1
  /** The counters are 32 bits wide. */
  const WIDTH := 0x1_0000_0000

  /** Lines that arrived in second s, of the seconds in order of arrival. */
  ghost function Count(history: seq<int>, s: int): nat {
    multiset(history)[s]
  }

  /** The sum of what the counters can show of the seconds from a up to b. */
  ghost function Shown(history: seq<int>, a: int, b: int): nat
    decreases b - a
  {
    if a >= b then 0 else Shown(history, a, b - 1) + Count(history, b - 1) % WIDTH
  }

  ghost function Exact(history: seq<int>, a: int, b: int): nat
    decreases b - a
  {
    if a >= b then 0 else Exact(history, a, b - 1) + Count(history, b - 1)
  }

  /** The counters are exact if and only if none of the seconds overflowed. */
  lemma {:induction false} ShownIsExact(history: seq<int>, a: int, b: int)
    ensures Shown(history, a, b) <= Exact(history, a, b)
    ensures Shown(history, a, b) == Exact(history, a, b) <==> forall s :: a <= s < b ==> Count(history, s) < WIDTH
    decreases b - a
  {
    if a < b {
      ShownIsExact(history, a, b - 1);
      Wrapped(Count(history, b - 1));
      if Shown(history, a, b) == Exact(history, a, b) {
        forall s | a <= s < b ensures Count(history, s) < WIDTH {
          assert s < b - 1 || s == b - 1;
        }
      } else if Count(history, b - 1) < WIDTH {
        assert Shown(history, a, b - 1) != Exact(history, a, b - 1);
      }
    }
  }

  lemma Wrapped(n: nat)
    ensures n % WIDTH <= n && (n % WIDTH == n <==> n < WIDTH)
  {
  }

  ghost predicate Sorted(history: seq<int>) {
    forall i, j :: 0 <= i < j < |history| ==> history[i] <= history[j]
  }

  /** The clock never stepped back, and does not at cur. */
  ghost predicate Steady(history: seq<int>, cur: int) {
    Sorted(history) && (history != [] ==> history[|history| - 1] <= cur)
  }

  lemma SteadyBefore(history: seq<int>, sec: int)
    ensures Sorted(history + [sec]) <==> Steady(history, sec)
  {
    if Sorted(history + [sec]) {
      forall i, j | 0 <= i < j < |history| ensures history[i] <= history[j] {
        assert (history + [sec])[i] <= (history + [sec])[j];
      }
      if history != [] {
        assert (history + [sec])[|history| - 1] <= (history + [sec])[|history|];
      }
    }
  }

  /** A slot counts its second if the second belongs to it, and no line if not. */
  ghost predicate SlotsCount(history: seq<int>, secs: seq<int>, counts: seq<int>) {
    |secs| == |counts| == SLOTS &&
    forall i :: 0 <= i < SLOTS ==> counts[i] == if secs[i] % SLOTS == i then Count(history, secs[i]) % WIDTH else 0
  }

  /** Every recent second that saw a line still has its slot. */
  ghost predicate RecentHaveSlots(history: seq<int>, secs: seq<int>) {
    |secs| == SLOTS && forall s :: s in history && s + SLOTS > history[|history| - 1] ==> secs[s % SLOTS] == s
  }

  /** Seconds less than eleven apart never share a slot. */
  lemma OwnSlots(s: int, t: int)
    requires s < t < s + SLOTS
    ensures s % SLOTS != t % SLOTS
  {
  }

  lemma CountOneMore(history: seq<int>, sec: int)
    ensures forall s :: Count(history + [sec], s) == Count(history, s) + if s == sec then 1 else 0
    ensures forall s :: Count(history, s) > 0 <==> s in history
  {
    forall s ensures Count(history, s) > 0 <==> s in history {
      assert s in multiset(history) <==> s in history;
    }
  }

  lemma CountedKeepsSlots(history: seq<int>, secs: seq<int>, counts: seq<int>, sec: int)
    requires SlotsCount(history, secs, counts) && RecentHaveSlots(history, secs)
    requires Steady(history, sec)
    ensures var i := sec % SLOTS;
            SlotsCount(history + [sec], secs[i := sec],
                       counts[i := ((if secs[i] == sec then counts[i] else 0) + 1) % WIDTH])
  {
    var i := sec % SLOTS;
    CountOneMore(history, sec);
    if sec in history {
      assert secs[i] == sec;
    }
    IncrementWraps(Count(history, sec));
  }

  lemma IncrementWraps(n: nat)
    ensures (n % WIDTH + 1) % WIDTH == (n + 1) % WIDTH
  {
  }

  lemma CountedKeepsRecent(history: seq<int>, secs: seq<int>, sec: int)
    requires RecentHaveSlots(history, secs) && Steady(history, sec)
    ensures RecentHaveSlots(history + [sec], secs[sec % SLOTS := sec])
  {
    var h := history + [sec];
    forall s | s in h && s + SLOTS > sec ensures secs[sec % SLOTS := sec][s % SLOTS] == s {
      if s != sec {
        assert s in history;
        OwnSlots(s, sec);
      }
    }
  }

  /** The second at or after `from` that slot i stands for, when slot `start`
      stands for `from` itself. */
  ghost function Owner(from: int, start: nat, i: int): (s: int)
    requires 0 <= i < SLOTS && start < SLOTS
    ensures from <= s < from + SLOTS
  {
    if i >= start then from + (i - start) else from + SLOTS + (i - start)
  }

  lemma OwnerSlot(from: int, i: int)
    requires 0 <= i < SLOTS
    ensures Owner(from, from % SLOTS, i) % SLOTS == i
  {
  }

  /** What one slot adds at second cur is what its second saw, and 0 for the
      second in progress. */
  lemma SlotAdds(history: seq<int>, secs: seq<int>, counts: seq<int>, cur: int, i: int)
    requires SlotsCount(history, secs, counts) && RecentHaveSlots(history, secs) && 0 <= i < SLOTS
    requires Steady(history, cur)
    ensures var s := Owner(cur - WINDOW, (cur - WINDOW) % SLOTS, i);
            (if cur - WINDOW <= secs[i] < cur then counts[i] else 0) == if s < cur then Count(history, s) % WIDTH else 0
  {
    var s := Owner(cur - WINDOW, (cur - WINDOW) % SLOTS, i);
    OwnerSlot(cur - WINDOW, i);
    CountOneMore(history, s);
    if s in history {
      assert secs[s % SLOTS] == s;
    }
    if cur - WINDOW <= secs[i] < cur && secs[i] % SLOTS == i && secs[i] != s {
      if secs[i] < s {
        OwnSlots(secs[i], s);
      } else {
        OwnSlots(s, secs[i]);
      }
    }
  }

  /** What each second adds to the sum at second cur. */
  ghost function Adds(history: seq<int>, cur: int): int -> nat {
    s => if s < cur then Count(history, s) % WIDTH else 0
  }

  /** What the slots before i add. */
  ghost function Added(f: int -> nat, from: int, start: nat, i: int): nat
    requires 0 <= i <= SLOTS && start < SLOTS
    decreases i
  {
    if i == 0 then 0 else Added(f, from, start, i - 1) + f(Owner(from, start, i - 1))
  }

  ghost function Span(f: int -> nat, a: int, b: int): nat
    decreases b - a
  {
    if a >= b then 0 else Span(f, a, b - 1) + f(b - 1)
  }

  /** The ring is the window rotated: its first slots hold the newer seconds. */
  lemma {:induction false} Rotated(f: int -> nat, from: int, start: nat, i: int)
    requires 0 <= i <= SLOTS && start < SLOTS
    ensures var newest := from + SLOTS - start;
            Added(f, from, start, i) == if i <= start then Span(f, newest, newest + i)
                                        else Span(f, newest, from + SLOTS) + Span(f, from, from + (i - start))
    decreases i
  {
    if i > 0 {
      Rotated(f, from, start, i - 1);
    }
  }

  lemma {:induction false} SpanSplits(f: int -> nat, a: int, m: int, b: int)
    requires a <= m <= b
    ensures Span(f, a, b) == Span(f, a, m) + Span(f, m, b)
    decreases b - m
  {
    if m < b {
      SpanSplits(f, a, m, b - 1);
    }
  }

  lemma {:induction false} SpanIsShown(history: seq<int>, cur: int, a: int, b: int)
    requires b <= cur
    ensures Span(Adds(history, cur), a, b) == Shown(history, a, b)
    decreases b - a
  {
    if a < b {
      SpanIsShown(history, cur, a, b - 1);
    }
  }

  /** Taken around the whole ring, every second of the window is met once. */
  lemma WholeRing(f: int -> nat, from: int, start: nat, n: int)
    requires n == SLOTS && start < n
    ensures Added(f, from, start, n) == Span(f, from, from + n)
  {
    Rotated(f, from, start, n);
    SpanSplits(f, from, from + n - start, from + n);
  }

  lemma WindowIsShown(history: seq<int>, cur: int, n: int)
    requires n == SLOTS
    ensures Span(Adds(history, cur), cur - WINDOW, cur - WINDOW + n) == Shown(history, cur - WINDOW, cur)
  {
    SpanIsShown(history, cur, cur - WINDOW, cur);
  }

  lemma AllSlots(history: seq<int>, cur: int, start: nat, n: int)
    requires n == SLOTS && start < n
    ensures Added(Adds(history, cur), cur - WINDOW, start, n) == Shown(history, cur - WINDOW, cur)
  {
    WholeRing(Adds(history, cur), cur - WINDOW, start, n);
    WindowIsShown(history, cur, n);
  }

  class Counter {
    const secs: array<int>
    const counts: array<int>
    ghost var history: seq<int>

    ghost predicate Valid()
      reads this, secs, counts
    {
      && secs != counts && secs.Length == counts.Length == SLOTS
      && (Sorted(history) ==> SlotsCount(history, secs[..], counts[..]) && RecentHaveSlots(history, secs[..]))
    }

    constructor ()
      ensures Valid() && history == [] && fresh(secs) && fresh(counts)
    {
      secs, counts := new int[SLOTS](_ => 0), new int[SLOTS](_ => 0);
      history := [];
    }

    /** countLineLocked: one line arrived in second sec. */
    method CountLine(sec: nat)
      requires Valid()
      modifies this, secs, counts
      ensures Valid() && history == old(history) + [sec]
    {
      var i := sec % SLOTS;
      ghost var secs', counts' := secs[..], counts[..];
      if secs[i] != sec {
        secs[i], counts[i] := sec, 0;
      }
      counts[i] := (counts[i] + 1) % WIDTH;
      history := history + [sec];
      assert secs[..] == secs'[i := sec];
      assert counts[..] == counts'[i := ((if secs'[i] == sec then counts'[i] else 0) + 1) % WIDTH];
      SteadyBefore(old(history), sec);
      if Steady(old(history), sec) {
        CountedKeepsSlots(old(history), secs', counts', sec);
        CountedKeepsRecent(old(history), secs', sec);
      }
    }

    /** linesPerSecLocked: with a clock that never stepped back, the mean over
        the last ten whole seconds. */
    method LinesPerSecond(cur: int) returns (rate: real)
      requires Valid()
      ensures Steady(history, cur) ==> rate == Shown(history, cur - WINDOW, cur) as real / 10.0
    {
      var sum := SumRecent(cur);
      rate := sum as real / 10.0;
    }

    method SumRecent(cur: int) returns (sum: int)
      requires Valid()
      ensures Steady(history, cur) ==> sum == Shown(history, cur - WINDOW, cur)
    {
      sum := 0;
      ghost var start := (cur - WINDOW) % SLOTS;
      for i := 0 to secs.Length
        invariant Steady(history, cur) ==> sum == Added(Adds(history, cur), cur - WINDOW, start, i)
      {
        if Steady(history, cur) {
          SlotAdds(history, secs[..], counts[..], cur, i);
        }
        if cur - WINDOW <= secs[i] < cur {
          sum := sum + counts[i];
        }
      }
      AllSlots(history, cur, start, secs.Length);
    }
  }
}
