/** The check that a sidecar's lines and chains make sense on this node
    (internal/singboxdiscover/discover.go). */
module SidecarCycle {
  import opened Common

  datatype Inbound = Inbound(tag: string, lineUUID: string, downstream: Option<string>)

  const SCHEMA := "lattice.singbox-metadata.v2"

  function Lower(s: string): string {
    seq(|s|, i requires 0 <= i < |s| => if 'A' <= s[i] <= 'Z' then (s[i] as int + 32) as char else s[i])
  }

  predicate HexDigit(c: char) {
    '0' <= c <= '9' || 'a' <= c <= 'f'
  }

  /** What a lower-case version 4 UUID may have at position i. */
  predicate Fits(i: nat, c: char) {
    if i in {8, 13, 18, 23} then c == '-'
    else if i == 14 then c == '4'
    else if i == 19 then c in {'8', '9', 'a', 'b'}
    else HexDigit(c)
  }

  predicate IsUUIDv4(v: string) {
    |v| == 36 && forall i :: 0 <= i < |v| ==> Fits(i, v[i])
  }

  const HEX := "0123456789abcdef"

  ghost predicate AllHex(s: string) {
    forall c :: c in s ==> c in HEX
  }

  /** Five groups of hexadecimal digits, the third beginning with the version and
      the fourth with the variant. */
  lemma UUIDGroups(v: string)
    ensures IsUUIDv4(v) <==>
      && |v| == 36 && v[8] == v[13] == v[18] == v[23] == '-' && v[14] == '4' && v[19] in "89ab"
      && AllHex(v[..8]) && AllHex(v[9..13]) && AllHex(v[14..18]) && AllHex(v[19..23]) && AllHex(v[24..])
  {
    assert forall c: char :: HexDigit(c) <==> c in HEX by {
      forall c: char ensures HexDigit(c) <==> c in HEX {
        HexMeans(c);
      }
    }
    if |v| == 36 && AllHex(v[..8]) && AllHex(v[9..13]) && AllHex(v[14..18]) && AllHex(v[19..23]) && AllHex(v[24..]) {
      forall i | 0 <= i < 36 && i !in {8, 13, 18, 23} ensures v[i] in HEX {
        assert i < 8 ==> v[i] in v[..8];
        assert 9 <= i < 13 ==> v[i] in v[9..13];
        assert 14 <= i < 18 ==> v[i] in v[14..18];
        assert 19 <= i < 23 ==> v[i] in v[19..23];
        assert 24 <= i ==> v[i] in v[24..];
      }
    }
  }

  lemma HexMeans(c: char)
    ensures HexDigit(c) <==> c in HEX
  {
    if HexDigit(c) {
      var i := if c <= '9' then c as int - '0' as int else c as int - 'a' as int + 10;
      assert HEX[i] == c;
    }
  }

  /** Only the capital letters change. */
  lemma LowerMeans(s: string)
    ensures Lower("ABCDEFGHIJKLMNOPQRSTUVWXYZ") == "abcdefghijklmnopqrstuvwxyz"
    ensures |Lower(s)| == |s| && forall i :: 0 <= i < |s| && !IsCapital(s[i]) ==> Lower(s)[i] == s[i]
  {
  }

  predicate IsCapital(c: char) {
    65 <= c as int <= 90
  }

  /** An inbound as it is compared: blanks cut, ids in lower case. */
  datatype Line<T> = Line(tag: T, id: T, downstream: Option<T>)

  function Normal(x: Inbound): Line<string> {
    Line(Trim(x.tag), Lower(Trim(x.lineUUID)),
         if x.downstream.None? then None else Some(Lower(Trim(x.downstream.value))))
  }

  predicate WellFormed(x: Line<string>) {
    x.tag != "" && IsUUIDv4(x.id) && (x.downstream.Some? ==> IsUUIDv4(x.downstream.value))
  }

  ghost predicate Apart<T>(x: Line<T>, y: Line<T>) {
    x.tag != y.tag && x.id != y.id
  }

  /** No two of the first n lines share a tag or an id. */
  ghost predicate Distinct<T>(lines: seq<Line<T>>, n: nat)
    requires n <= |lines|
  {
    forall i, j :: 0 <= i < j < n ==> Apart(lines[i], lines[j])
  }

  /** A chain of declared edges, from local line to local line, that returns to
      where it began. */
  ghost predicate Cycle<T>(lines: seq<Line<T>>, p: seq<nat>) {
    && |p| > 1 && p[0] == p[|p| - 1] && (forall k :: 0 <= k < |p| ==> p[k] < |lines|)
    && forall k :: 0 <= k < |p| - 1 ==> lines[p[k]].downstream == Some(lines[p[k + 1]].id)
  }

  /** Tags and ids are distinct, and no chain returns to a local line. */
  ghost predicate Sound<T>(lines: seq<Line<T>>) {
    Distinct(lines, |lines|) && forall p :: !Cycle(lines, p)
  }

  /** What the first loop gathers. */
  datatype Maps<T> = Maps(byTag: set<T>, byUUID: set<T>, next: map<T, T>)

  function Added<T(==)>(m: Maps<T>, x: Line<T>): Maps<T> {
    Maps(m.byTag + {x.tag}, m.byUUID + {x.id},
         if x.downstream.None? then m.next else m.next[x.id := x.downstream.value])
  }

  /** The entry is new and does not lead to itself. */
  predicate Admissible<T(==)>(m: Maps<T>, x: Line<T>) {
    x.tag !in m.byTag && x.id !in m.byUUID && x.downstream != Some(x.id)
  }

  /** The maps hold the tags, the ids and the edges of the first n lines. */
  ghost predicate Collected<T>(lines: seq<Line<T>>, n: nat, m: Maps<T>)
    requires n <= |lines|
  {
    && m.byTag == (set i | 0 <= i < n :: lines[i].tag) && m.byUUID == (set i | 0 <= i < n :: lines[i].id)
    && m.next.Keys <= m.byUUID
    && forall i :: 0 <= i < n ==>
      lines[i].downstream == if lines[i].id in m.next then Some(m.next[lines[i].id]) else None
  }

  lemma AddedOneMore<T>(lines: seq<Line<T>>, n: nat, m: Maps<T>)
    requires n < |lines| && Distinct(lines, n) && Collected(lines, n, m) && Admissible(m, lines[n])
    ensures Distinct(lines, n + 1) && Collected(lines, n + 1, Added(m, lines[n]))
  {
    forall i | 0 <= i < n ensures Apart(lines[i], lines[n]) {
      assert lines[i].tag in m.byTag && lines[i].id in m.byUUID;
    }
  }

  /** An entry that is refused makes the whole unsound. */
  lemma Refused<T>(lines: seq<Line<T>>, n: nat, m: Maps<T>)
    requires n < |lines| && Collected(lines, n, m) && !Admissible(m, lines[n])
    ensures !Sound(lines)
  {
    var x := lines[n];
    if x.tag in m.byTag {
      var j :| 0 <= j < n && lines[j].tag == x.tag;
      assert !Apart(lines[j], lines[n]);
    } else if x.id in m.byUUID {
      var j :| 0 <= j < n && lines[j].id == x.id;
      assert !Apart(lines[j], lines[n]);
    } else {
      assert Cycle(lines, [n, n]);
    }
  }

  /** The id is one of those on the cycle. */
  ghost predicate On<T>(lines: seq<Line<T>>, p: seq<nat>, x: T)
    requires Cycle(lines, p)
  {
    exists k :: 0 <= k < |p| && lines[p[k]].id == x
  }

  /** Whoever is on a cycle goes on, and stays on it. */
  lemma StaysOn<T>(lines: seq<Line<T>>, m: Maps<T>, p: seq<nat>, x: T)
    requires Collected(lines, |lines|, m) && Cycle(lines, p) && On(lines, p, x)
    ensures x in m.next && On(lines, p, m.next[x])
  {
    var k :| 0 <= k < |p| && lines[p[k]].id == x;
    var j := if k == |p| - 1 then 0 else k;
    assert lines[p[j]].id == x && lines[p[j]].downstream == Some(lines[p[j + 1]].id);
  }

  /** Each line of the trail leads to the one after it, the last one to x. */
  ghost predicate Trail<T>(lines: seq<Line<T>>, trail: seq<nat>, x: T) {
    && (forall j :: 0 <= j < |trail| ==> trail[j] < |lines|)
    && (forall j :: 0 <= j < |trail| - 1 ==> lines[trail[j]].downstream == Some(lines[trail[j + 1]].id))
    && (trail != [] ==> lines[trail[|trail| - 1]].downstream == Some(x))
  }

  /** A trail that comes back to one of its lines holds a cycle. */
  lemma TrailCloses<T>(lines: seq<Line<T>>, trail: seq<nat>, i: nat)
    requires i < |trail| && trail[i] < |lines| && Trail(lines, trail, lines[trail[i]].id)
    ensures Cycle(lines, trail[i..] + [trail[i]])
  {
    var p := trail[i..] + [trail[i]];
    forall k | 0 <= k < |p| - 1 ensures lines[p[k]].downstream == Some(lines[p[k + 1]].id) {
      assert p[k] == trail[i + k] && p[k + 1] == if i + k + 1 < |trail| then trail[i + k + 1] else trail[i];
    }
  }

  /** The walk from `start` is at `current`: the trail led there, and every cycle
      through `start` goes through `current`. */
  ghost predicate Walking<T>(lines: seq<Line<T>>, trail: seq<nat>, start: T, current: Option<T>) {
    && (current.Some? ==> Trail(lines, trail, current.value))
    && forall p :: Cycle(lines, p) && lines[p[0]].id == start ==> current.Some? && On(lines, p, current.value)
  }

  /** The edge out of x, if one is declared. */
  function Next<T(==)>(m: Maps<T>, x: T): Option<T> {
    if x in m.next then Some(m.next[x]) else None
  }

  lemma WalkOn<T>(lines: seq<Line<T>>, m: Maps<T>, trail: seq<nat>, start: T, at: nat)
    requires Collected(lines, |lines|, m) && at < |lines| && Walking(lines, trail, start, Some(lines[at].id))
    ensures Walking(lines, trail + [at], start, Next(m, lines[at].id))
  {
    var x := lines[at].id;
    forall p | Cycle(lines, p) && lines[p[0]].id == start ensures x in m.next && On(lines, p, m.next[x]) {
      StaysOn(lines, m, p, x);
    }
  }

  /** A walk that ended was on no cycle. */
  lemma WalkEnds<T>(lines: seq<Line<T>>, m: Maps<T>, trail: seq<nat>, start: T, current: Option<T>)
    requires Collected(lines, |lines|, m) && Walking(lines, trail, start, current)
    requires current.Some? ==> current.value !in m.next
    ensures forall p :: Cycle(lines, p) ==> lines[p[0]].id != start
  {
    forall p | Cycle(lines, p) ensures lines[p[0]].id != start {
      if lines[p[0]].id == start {
        StaysOn(lines, m, p, current.value);
      }
    }
  }

  /** The ids seen are those of the trail. */
  ghost predicate SeenOnTrail<T>(lines: seq<Line<T>>, trail: seq<nat>, seen: set<T>) {
    && (forall i :: 0 <= i < |trail| ==> trail[i] < |lines|)
    && seen == set i | 0 <= i < |trail| :: lines[trail[i]].id
  }

  /** Coming back to an id that was seen closes a cycle. */
  lemma ComesBack<T>(lines: seq<Line<T>>, trail: seq<nat>, seen: set<T>, start: T, current: T)
    requires SeenOnTrail(lines, trail, seen) && current in seen && Walking(lines, trail, start, Some(current))
    ensures exists p :: Cycle(lines, p)
  {
    var i: nat :| i < |trail| && lines[trail[i]].id == current;
    TrailCloses(lines, trail, i);
  }

  lemma SeenOneMore<T>(lines: seq<Line<T>>, trail: seq<nat>, seen: set<T>, at: nat)
    requires SeenOnTrail(lines, trail, seen) && at < |lines|
    ensures SeenOnTrail(lines, trail + [at], seen + {lines[at].id})
  {
    var more := trail + [at];
    forall x ensures x in seen + {lines[at].id} <==> x in set i | 0 <= i < |more| :: lines[more[i]].id {
      if x in seen {
        var i :| 0 <= i < |trail| && lines[trail[i]].id == x;
        assert lines[more[i]].id == x;
      }
      assert lines[more[|trail|]].id == lines[at].id;
    }
  }

  /** Follow one chain to its end, to another node, or around. */
  method Follow<T(==)>(lines: seq<Line<T>>, m: Maps<T>, start: T) returns (ok: bool)
    requires Collected(lines, |lines|, m)
    ensures ok ==> forall p :: Cycle(lines, p) ==> lines[p[0]].id != start
    ensures !ok ==> exists p :: Cycle(lines, p)
  {
    var seen: set<T> := {};
    var current := Some(start);
    ghost var trail: seq<nat> := [];
    while current.Some?
      invariant seen <= m.byUUID && Walking(lines, trail, start, current) && SeenOnTrail(lines, trail, seen)
      decreases m.byUUID - seen, current.Some?
    {
      var x := current.value;
      if x !in m.byUUID {
        break;
      }
      if x in seen {
        ComesBack(lines, trail, seen, start, x);
        return false;
      }
      ghost var at: nat :| at < |lines| && lines[at].id == x;
      WalkOn(lines, m, trail, start, at);
      SeenOneMore(lines, trail, seen, at);
      seen := seen + {x};
      trail := trail + [at];
      current := Next(m, x);
    }
    WalkEnds(lines, m, trail, start, current);
    ok := true;
  }

  /** The second loop: every chain is followed from every line that has one. */
  method FollowAll<T(==)>(lines: seq<Line<T>>, m: Maps<T>) returns (ok: bool)
    requires Collected(lines, |lines|, m)
    ensures ok <==> forall p :: !Cycle(lines, p)
  {
    var starts := m.next.Keys;
    forall p | Cycle(lines, p) ensures lines[p[0]].id in starts {
      assert On(lines, p, lines[p[0]].id);
      StaysOn(lines, m, p, lines[p[0]].id);
    }
    while starts != {}
      invariant forall p :: Cycle(lines, p) ==> lines[p[0]].id in starts
      decreases |starts|
    {
      var start :| start in starts;
      ok := Follow(lines, m, start);
      if !ok {
        return;
      }
      starts := starts - {start};
    }
    ok := true;
  }

  /** validateSingBoxSidecar: accepted exactly when every entry is well formed,
      tags and ids are distinct, and no chain returns to a local line. */
  method Validate(schema: string, inbounds: seq<Inbound>) returns (ok: bool)
    ensures var lines := seq(|inbounds|, i requires 0 <= i < |inbounds| => Normal(inbounds[i]));
            ok <==>
              && schema == "lattice.singbox-metadata.v2" && Sound(lines)
              && forall i :: 0 <= i < |lines| ==>
                   && lines[i].tag != "" && IsUUIDv4(lines[i].id)
                   && (lines[i].downstream.Some? ==> IsUUIDv4(lines[i].downstream.value))
  {
    if schema != SCHEMA {
      return false;
    }
    var lines := seq(|inbounds|, i requires 0 <= i < |inbounds| => Normal(inbounds[i]));
    var m: Maps<string> := Maps({}, {}, map[]);
    for i := 0 to |lines|
      invariant (forall j :: 0 <= j < i ==> WellFormed(lines[j])) && Distinct(lines, i) && Collected(lines, i, m)
    {
      if !WellFormed(lines[i]) {
        return false;
      }
      if !Admissible(m, lines[i]) {
        Refused(lines, i, m);
        return false;
      }
      AddedOneMore(lines, i, m);
      m := Added(m, lines[i]);
    }
    ok := FollowAll(lines, m);
  }
}
