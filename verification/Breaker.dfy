/** The beacon's circuit breaker: a shifted 64-bit word against the full history
    of every second (internal/beacon/guard.go). */
module Breaker {

  const DROPS_PER_SECOND := 5000
  const HOT_SECONDS := 54
  const SECOND := 1_000_000_000
  const MAX_UINT32 := 0xFFFF_FFFF

  /** One datagram, or the news that the second's global budget ran out. */
  datatype Event = Recorded(sec: int, dropped: bool) | Saturated(sec: int)

  /** The second an event counts in: a clock that stepped back stays where it
      was. */
  ghost function Clock(log: seq<Event>): int
    requires log != []
  {
    var last := log[|log| - 1].sec;
    if |log| == 1 || Clock(log[..|log| - 1]) < last then last else Clock(log[..|log| - 1])
  }

  ghost function Drops(log: seq<Event>, s: int): nat {
    if log == [] then 0
    else
      var last := log[|log| - 1];
      Drops(log[..|log| - 1], s) + if last.Recorded? && last.dropped && Clock(log) == s then 1 else 0
  }

  ghost predicate Full(log: seq<Event>, s: int) {
    log != [] && (Full(log[..|log| - 1], s) || (log[|log| - 1].Saturated? && Clock(log) == s))
  }

  ghost predicate Hot(log: seq<Event>, s: int) {
    Full(log, s) || Drops(log, s) >= DROPS_PER_SECOND
  }

  /** Hot seconds from a up to b. */
  ghost function HotSeconds(log: seq<Event>, a: int, b: int): nat
    decreases b - a
  {
    if a >= b then 0 else HotSeconds(log, a + 1, b) + if Hot(log, a) then 1 else 0
  }

  /** The last minute was a flood: enough of its 60 seconds were hot, and the
      oldest of them was. */
  ghost predicate Flood(log: seq<Event>, now: int) {
    Hot(log, now - 59) && HotSeconds(log, now - 59, now + 1) >= HOT_SECONDS
  }

  /** Nothing has happened yet in a second the clock has not reached. */
  lemma {:induction false} NothingAhead(log: seq<Event>, s: int)
    requires log != [] ==> s > Clock(log)
    ensures Drops(log, s) == 0 && !Full(log, s) && !Hot(log, s)
  {
    if log != [] {
      NothingAhead(log[..|log| - 1], s);
    }
  }

  /** One more event changes its own second only. */
  lemma OneMore(log: seq<Event>, e: Event, s: int)
    ensures var log' := log + [e];
            && Clock(log') == (if log == [] || Clock(log) < e.sec then e.sec else Clock(log))
            && Drops(log', s) == Drops(log, s) + (if e.Recorded? && e.dropped && s == Clock(log') then 1 else 0)
            && (Full(log', s) <==> Full(log, s) || (e.Saturated? && s == Clock(log')))
  {
    assert (log + [e])[..|log|] == log;
  }

  // Words.

  const TOP: bv64 := 0x8000_0000_0000_0000

  /** The word with only bit i. */
  ghost function Place(i: nat): bv64 {
    if i == 0 then 1 else Place(i - 1) << 1
  }

  predicate Meets(w: bv64, p: bv64) {
    w & p != 0
  }

  ghost predicate Bit(w: bv64, i: nat) {
    Meets(w, Place(i))
  }

  ghost function CountBits(w: bv64, n: nat): nat {
    if n == 0 then 0 else CountBits(w, n - 1) + if Bit(w, n - 1) then 1 else 0
  }

  /** Go's shift by a count. */
  function ShiftLeft(w: bv64, n: nat): bv64 {
    if n == 0 then w else ShiftLeft(w, n - 1) << 1
  }

  ghost predicate Single(p: bv64) {
    p != 0 && p & (p - 1) == 0
  }

  lemma {:induction false} PlaceRuns(i: nat)
    requires i < 64
    ensures Single(Place(i)) && Place(i) << 1 == (if i == 63 then 0 else Place(i + 1))
    ensures i < 63 ==> Place(i) & TOP == 0
    decreases 64 - i
  {
    PlaceSingle(i);
    if i < 63 {
      PlaceRuns(i + 1);
      SingleBelow(Place(i));
    } else {
      TopPlace();
    }
  }

  lemma {:induction false} OneUp(i: nat)
    ensures Place(i + 1) == Place(i) << 1
  {
  }

  lemma {:induction false} OneUpTwice(i: nat)
    ensures Place(i + 2) == (Place(i) << 1) << 1
  {
    OneUp(i);
    OneUp(i + 1);
  }

  lemma {:induction false} TwoUp(i: nat)
    ensures Place(i + 2) == Place(i) << 2
  {
    OneUpTwice(i);
    ShiftsAdd(Place(i));
  }

  lemma {:induction false} TwoUpTwice(i: nat)
    ensures Place(i + 4) == (Place(i) << 2) << 2
  {
    TwoUp(i);
    TwoUp(i + 2);
  }

  lemma {:induction false} FourUp(i: nat)
    ensures Place(i + 4) == Place(i) << 4
  {
    TwoUpTwice(i);
    ShiftsAdd(Place(i));
  }

  lemma ShiftsAdd(p: bv64)
    ensures (p << 1) << 1 == p << 2 && (p << 2) << 2 == p << 4
  {
  }

  lemma {:induction false} SixteenUp(i: nat)
    ensures Place(i + 16) == Place(i) << 16
  {
    FourUp(i);
    FourUp(i + 4);
    FourUp(i + 8);
    FourUp(i + 12);
  }

  lemma TopPlace()
    ensures Place(63) == TOP && Place(58) == 1 << 58 && Place(59) == 1 << 59
  {
    SixteenUp(0);
    SixteenUp(16);
    SixteenUp(32);
    FourUp(48);
    FourUp(52);
    FourUp(56);
    assert Place(57) == Place(56) << 1;
    assert Place(58) == Place(57) << 1;
    assert Place(59) == Place(58) << 1;
    FourUp(59);
  }

  lemma {:induction false} PlaceSingle(i: nat)
    ensures Place(i) == 0 || Single(Place(i))
  {
    if i > 0 {
      PlaceSingle(i - 1);
      SingleShifts(Place(i - 1));
    }
  }

  lemma SingleShifts(p: bv64)
    requires p == 0 || Single(p)
    ensures p << 1 == 0 || Single(p << 1)
  {
  }

  lemma SingleBelow(p: bv64)
    requires (p == 0 || Single(p)) && p << 1 != 0
    ensures Single(p) && p & TOP == 0
  {
  }

  /** A new bit comes in at 0 and every other moves up; bit 63 falls off. */
  lemma {:induction false} BitsMoveUp(w: bv64, b: bv64, i: nat)
    requires b <= 1 && i < 64
    ensures Bit((w << 1) | b, i) <==> if i == 0 then b == 1 else Bit(w, i - 1)
  {
    if i == 0 {
      LowBit(w, b);
    } else {
      PlaceRuns(i - 1);
      BitMovesUp(w, b, Place(i - 1));
    }
  }

  lemma LowBit(w: bv64, b: bv64)
    requires b <= 1
    ensures Meets((w << 1) | b, 1) <==> b == 1
  {
  }

  lemma BitMovesUp(w: bv64, b: bv64, p: bv64)
    requires b <= 1 && p & TOP == 0
    ensures Meets((w << 1) | b, p << 1) <==> Meets(w, p)
  {
  }

  lemma {:induction false} ShiftedBits(w: bv64, n: nat, i: nat)
    requires i < 64
    ensures Bit(ShiftLeft(w, n), i) <==> i >= n && Bit(w, i - n)
    decreases n
  {
    if n > 0 {
      var x := ShiftLeft(w, n - 1);
      BitsMoveUp(x, 0, i);
      assert (x << 1) | 0 == x << 1;
      if i > 0 {
        ShiftedBits(w, n - 1, i - 1);
      }
    }
  }

  /** 1 << 59 - 1. */
  const WINDOW_MASK: bv64 := 0x07FF_FFFF_FFFF_FFFF

  lemma {:induction false} PlaceInWindow(i: nat)
    requires i < 59
    ensures Place(i) & WINDOW_MASK == Place(i)
    decreases 59 - i
  {
    if i == 58 {
      TopPlace();
    } else {
      PlaceInWindow(i + 1);
      PlaceRuns(i);
      MaskBelow(Place(i));
    }
  }

  lemma {:induction false} PlaceBeyondWindow(i: nat)
    requires 59 <= i < 64
    ensures Place(i) & WINDOW_MASK == 0
  {
    if i == 59 {
      TopPlace();
    } else {
      PlaceBeyondWindow(i - 1);
      PlaceRuns(i - 1);
      MaskAbove(Place(i - 1));
    }
  }

  lemma MaskBelow(p: bv64)
    requires p & TOP == 0 && (p << 1) & WINDOW_MASK == p << 1
    ensures p & WINDOW_MASK == p
  {
  }

  lemma MaskAbove(p: bv64)
    requires p & WINDOW_MASK == 0
    ensures (p << 1) & WINDOW_MASK == 0
  {
  }

  lemma {:induction false} MaskedInside(w: bv64, i: nat)
    requires i < 59
    ensures Bit(w & WINDOW_MASK, i) <==> Bit(w, i)
  {
    PlaceInWindow(i);
    MaskKeeps(w, Place(i));
  }

  lemma MaskKeeps(w: bv64, p: bv64)
    requires p & WINDOW_MASK == p
    ensures Meets(w & WINDOW_MASK, p) <==> Meets(w, p)
  {
    assert (w & WINDOW_MASK) & p == w & p;
  }

  lemma {:induction false} MaskedBeyond(w: bv64, i: nat)
    requires 59 <= i < 64
    ensures !Bit(w & WINDOW_MASK, i)
  {
    PlaceBeyondWindow(i);
    MaskClears(w, Place(i));
  }

  lemma MaskClears(w: bv64, p: bv64)
    requires p & WINDOW_MASK == 0
    ensures !Meets(w & WINDOW_MASK, p)
  {
    assert (w & WINDOW_MASK) & p == 0;
  }

  // The word against the history.

  /** Bit i of the word says whether the second i + 1 before now was hot. */
  ghost predicate Remembers(w: bv64, log: seq<Event>, now: int) {
    forall i :: 0 <= i < 64 ==> (Bit(w, i) <==> Hot(log, now - 1 - i))
  }

  /** The word once `gap` quiet seconds followed the one that just closed. */
  function NextWord(w: bv64, b: bv64, gap: nat): bv64 {
    if gap >= 64 then 0 else ShiftLeft((w << 1) | b, gap)
  }

  /** Where each bit of the next word comes from. */
  lemma {:induction false} NextBit(w: bv64, b: bv64, gap: nat, i: nat)
    requires b <= 1 && i < 64
    ensures Bit(NextWord(w, b, gap), i) <==> i >= gap && if i == gap then b == 1 else Bit(w, i - gap - 1)
  {
    if gap < 64 {
      ShiftedBits((w << 1) | b, gap, i);
      if i >= gap {
        BitsMoveUp(w, b, i - gap);
      }
    } else {
      NoBits(i);
    }
  }

  /** The seconds that end at `now`: its word shifted, and nothing since. */
  lemma Advanced(w: bv64, log: seq<Event>, now: int, later: int, b: bv64)
    requires Remembers(w, log, now) && now < later && (log != [] ==> Clock(log) <= now)
    requires b <= 1 && (b == 1 <==> Hot(log, now))
    ensures Remembers(NextWord(w, b, later - now - 1), log, later)
  {
    var gap := later - now - 1;
    forall i | 0 <= i < 64 ensures Bit(NextWord(w, b, gap), i) <==> Hot(log, later - 1 - i) {
      NextBit(w, b, gap, i);
      if i < gap {
        NothingAhead(log, later - 1 - i);
      }
    }
  }

  lemma {:induction false} NoBits(i: nat)
    ensures !Bit(0, i)
  {
    MeetsNothing(Place(i));
  }

  lemma MeetsNothing(p: bv64)
    ensures !Meets(0, p)
  {
  }

  /** The ones in the masked word are the hot seconds of the last 59. */
  lemma {:induction false} OnesAreHotSeconds(w: bv64, log: seq<Event>, now: int, n: nat)
    requires Remembers(w, log, now) && n <= 64
    ensures CountBits(w & WINDOW_MASK, n) == HotSeconds(log, now - if n < 59 then n else 59, now)
  {
    if n > 0 {
      OnesAreHotSeconds(w, log, now, n - 1);
      if n <= 59 {
        MaskedInside(w, n - 1);
      } else {
        MaskedBeyond(w, n - 1);
      }
    }
  }

  lemma {:induction false} HotSecondsEnd(log: seq<Event>, a: int, b: int)
    requires a <= b
    ensures HotSeconds(log, a, b + 1) == HotSeconds(log, a, b) + if Hot(log, b) then 1 else 0
    decreases b - a
  {
    if a < b {
      HotSecondsEnd(log, a + 1, b);
    }
  }

  /** bits.OnesCount64. */
  method OnesCount(w: bv64) returns (n: nat)
    ensures n == CountBits(w, 64)
  {
    n := 0;
    var i := 0;
    var place: bv64 := 1;
    while i < 64
      invariant 0 <= i <= 64 && n == CountBits(w, i) && (i < 64 ==> place == Place(i))
    {
      if Meets(w, place) {
        n := n + 1;
      }
      OneUp(i);
      place := place << 1;
      i := i + 1;
    }
  }

  class Breaker {
    var started: bool
    var sec: int
    var drops: nat
    var saturated: bool
    var hot: bv64
    /** Everything that was recorded, with the second it was stamped. */
    ghost var log: seq<Event>

    ghost predicate Valid()
      reads this
    {
      if started then log != [] && sec == Clock(log) && Tracks() else log == [] && hot == 0 && drops == 0 && !saturated
    }

    /** The fields say what the log says, seen from second sec. */
    ghost predicate Tracks()
      reads this
    {
      && drops == Capped(Drops(log, sec)) && (saturated <==> Full(log, sec))
      && Remembers(hot, log, sec)
    }

    constructor ()
      ensures Valid() && log == []
    {
      started, sec, drops, saturated, hot, log := false, 0, 0, false, 0, [];
    }

    predicate IsHot()
      reads this
    {
      saturated || drops >= DROPS_PER_SECOND
    }

    /** advance: the seconds up to this one are over. With an instant from the past
        the running second goes on. */
    method Advance(nowSec: int)
      requires Valid()
      modifies this`started, this`sec, this`drops, this`saturated, this`hot
      ensures started && Tracks() && sec == if old(started) && nowSec <= old(sec) then old(sec) else nowSec
    {
      if started && nowSec <= sec {
        return;
      }
      if started {
        var bit: bv64 := if IsHot() then 1 else 0;
        Advanced(hot, log, sec, nowSec, bit);
        hot := NextWord(hot, bit, nowSec - sec - 1);
      } else {
        NothingYet(nowSec);
      }
      NothingAhead(log, nowSec);
      started, sec, drops, saturated := true, nowSec, 0, false;
    }

    /** record: one datagram, dropped or answered. */
    method Record(nowNs: int, dropped: bool)
      requires Valid()
      modifies this
      ensures Valid() && log == old(log) + [Recorded(Seconds(nowNs), dropped)]
    {
      Advance(Seconds(nowNs));
      if dropped && drops < MAX_UINT32 {
        drops := drops + 1;
      }
      Note(Recorded(Seconds(nowNs), dropped));
    }

    /** saturate: the global budget ran out in this second. */
    method Saturate(nowNs: int)
      requires Valid()
      modifies this
      ensures Valid() && log == old(log) + [Saturated(Seconds(nowNs))]
    {
      Advance(Seconds(nowNs));
      saturated := true;
      Note(Saturated(Seconds(nowNs)));
    }

    /** The event belongs to second sec, and the fields count it already. */
    ghost method Note(e: Event)
      requires started && Remembers(hot, log, sec)
      requires sec == if log == [] || Clock(log) < e.sec then e.sec else Clock(log)
      requires drops == Capped(Drops(log, sec) + if e.Recorded? && e.dropped then 1 else 0)
      requires saturated <==> Full(log, sec) || e.Saturated?
      modifies this`log
      ensures Valid() && log == old(log) + [e]
    {
      forall s ensures s != sec ==> (Hot(log + [e], s) <==> Hot(log, s)) {
        OneMore(log, e, s);
      }
      OneMore(log, e, sec);
      log := log + [e];
    }

    /** open: exactly when the last minute of the full history was a flood. */
    method Open() returns (tripped: bool)
      requires Valid()
      ensures tripped <==> started && Flood(log, sec)
    {
      if !started {
        NothingYet(0);
      }
      var window := hot & WINDOW_MASK;
      Oldest(hot);
      if window & 0x0400_0000_0000_0000 == 0 {
        return false;
      }
      var n := HotSecondsCount();
      tripped := n >= HOT_SECONDS;
    }

    /** hotSeconds: how many seconds of the last minute were hot. */
    method HotSecondsCount() returns (n: nat)
      requires Valid()
      ensures started ==> n == HotSeconds(log, sec - 59, sec + 1)
    {
      n := OnesCount(hot & WINDOW_MASK);
      if IsHot() {
        n := n + 1;
      }
      if started {
        OnesAreHotSeconds(hot, log, sec, 64);
        HotSecondsEnd(log, sec - 59, sec);
      }
    }
  }

  ghost function Capped(n: nat): nat {
    if n < MAX_UINT32 then n else MAX_UINT32
  }

  /** Go's division drops the fraction. */
  function Seconds(ns: int): int {
    if ns >= 0 then ns / SECOND else -(-ns / SECOND)
  }

  /** Toward zero: a second begins on the whole second, and before 1970 it is the
      other way round. */
  lemma SecondsMeans(ns: int)
    ensures ns >= 0 ==> Seconds(ns) * SECOND <= ns < (Seconds(ns) + 1) * SECOND
    ensures Seconds(-ns) == -Seconds(ns)
  {
  }

  /** Without events no bit is set and no second is hot. */
  lemma NothingYet(now: int)
    ensures Remembers(0, [], now)
  {
    forall i | 0 <= i < 64 ensures !Bit(0, i) {
      NoBits(i);
    }
  }

  lemma Oldest(w: bv64)
    ensures (w & WINDOW_MASK) & 0x0400_0000_0000_0000 != 0 <==> Bit(w, 58)
  {
    TopPlace();
    MaskedInside(w, 58);
  }
}
