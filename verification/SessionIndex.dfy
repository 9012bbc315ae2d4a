/** The assembler's indexes as values, and why each update keeps them in
    agreement (internal/sessionasm/sessionasm.go). */
module SessionIndex {
  import opened Common
  import opened DoneIds
  import opened SessionConn

  /** The open connections by log id, the ids in order of creation, the source
      index, and what is known of each connection. */
  datatype Book = Book(open: map<nat, Conn>, order: seq<nat>, bySrc: map<SrcKey, nat>, known: map<nat, Evidence>)

  /** The ordered list holds the ids of the map, each exactly once. */
  ghost predicate Listed(open: map<nat, Conn>, order: seq<nat>) {
    multiset(order) == multiset(open.Keys)
  }

  /** Every source key leads to an open connection that has it. */
  ghost predicate SourcesLead(open: map<nat, Conn>, bySrc: map<SrcKey, nat>) {
    forall k :: k in bySrc ==> bySrc[k] in open && open[bySrc[k]].srcKey == Some(k)
  }

  /** Every open connection is honest and goes by a poll that happened. */
  ghost predicate StatesHonest(open: map<nat, Conn>, known: map<nat, Evidence>, quiet: int, polls: nat) {
    forall id :: id in open ==>
      id in known && open[id].rec.logID == id && ConnOk(open[id], known[id], quiet) &&
        (open[id].sampled ==> open[id].lastSnapSeq <= polls)
  }

  datatype Law = OrderAgrees | SourcesAgree | StatesAgree

  ghost predicate Kept(law: Law, b: Book, quiet: int, polls: nat) {
    match law
    case OrderAgrees => Listed(b.open, b.order)
    case SourcesAgree => SourcesLead(b.open, b.bySrc)
    case StatesAgree => StatesHonest(b.open, b.known, quiet, polls)
  }

  ghost function Violated(b: Book, quiet: int, polls: nat): set<Law> {
    set law: Law | !Kept(law, b, quiet, polls)
  }

  /** The indexes agree with each other and with what was observed. */
  ghost predicate Sound(b: Book, quiet: int, polls: nat) {
    Violated(b, quiet, polls) == {}
  }

  lemma SoundMeans(b: Book, quiet: int, polls: nat)
    ensures Sound(b, quiet, polls) <==>
      Listed(b.open, b.order) && SourcesLead(b.open, b.bySrc) && StatesHonest(b.open, b.known, quiet, polls)
  {
    var v := Violated(b, quiet, polls);
    assert OrderAgrees in v <==> !Listed(b.open, b.order);
    assert SourcesAgree in v <==> !SourcesLead(b.open, b.bySrc);
    assert StatesAgree in v <==> !StatesHonest(b.open, b.known, quiet, polls);
  }

  lemma EmptySound(quiet: int)
    ensures Sound(Book(map[], [], map[], map[]), quiet, 0)
  {
    SoundMeans(Book(map[], [], map[], map[]), quiet, 0);
  }

  /** What soundness says of one open connection. */
  lemma OpenOne(b: Book, quiet: int, polls: nat, id: nat)
    requires Sound(b, quiet, polls) && id in b.open
    ensures id in b.known && b.open[id].rec.logID == id && ConnOk(b.open[id], b.known[id], quiet)
    ensures b.open[id].sampled ==> b.open[id].lastSnapSeq <= polls
    ensures id in b.order
  {
    SoundMeans(b, quiet, polls);
    assert id in multiset(b.order);
  }

  /** Any final record of an open connection is honest if its ending is. */
  lemma FinalOne(b: Book, quiet: int, polls: nat, id: nat, cand: Candidate, endedAt: int, fromClock: bool, gen: nat)
    requires Sound(b, quiet, polls) && id in b.open
    requires id in b.known && (cand.reason == NoReason || MayName(b.known[id], cand.reason))
    ensures var r := FinalRecord(b.open[id], cand, endedAt, fromClock, gen);
            Honest(r, b.known[id], quiet) && !r.open
  {
    OpenOne(b, quiet, polls, id);
    FinalHonest(b.open[id], b.known[id], cand, endedAt, fromClock, gen, quiet);
  }

  lemma ListedOne(b: Book, quiet: int, polls: nat, i: nat)
    requires Sound(b, quiet, polls) && i < |b.order|
    ensures b.order[i] in b.open
  {
    SoundMeans(b, quiet, polls);
    assert b.order[i] in multiset(b.order);
  }

  lemma AllListed(b: Book, quiet: int, polls: nat)
    requires Sound(b, quiet, polls)
    ensures forall id :: id in b.open ==> id in b.order
  {
    forall id | id in b.open ensures id in b.order {
      OpenOne(b, quiet, polls, id);
    }
  }

  lemma ListedOnce(b: Book, quiet: int, polls: nat, i: nat)
    requires Sound(b, quiet, polls) && i < |b.order|
    ensures b.order[i] in b.open && b.order[i] !in b.order[..i]
  {
    ListedOne(b, quiet, polls, i);
    SoundMeans(b, quiet, polls);
    var id := b.order[i];
    assert b.order == b.order[..i] + [id] + b.order[i + 1..];
    assert multiset(b.order)[id] == 1;
  }

  /** The next connection in order is open and known, and comes once. */
  lemma ListedNext(b: Book, quiet: int, polls: nat, i: nat)
    requires Sound(b, quiet, polls) && i < |b.order|
    ensures b.order[i] in b.open && b.order[i] in b.known && b.order[i] !in b.order[..i]
  {
    ListedOnce(b, quiet, polls, i);
    OpenOne(b, quiet, polls, b.order[i]);
  }

  lemma SameSize(b: Book, quiet: int, polls: nat)
    requires Sound(b, quiet, polls)
    ensures |b.open| == |b.order|
  {
    SoundMeans(b, quiet, polls);
    assert |multiset(b.order)| == |b.order| && |multiset(b.open.Keys)| == |b.open.Keys| == |b.open|;
  }

  /** A finished connection gives up its source key if it still holds it. */
  function Unindexed(bySrc: map<SrcKey, nat>, id: nat, key: Option<SrcKey>): map<SrcKey, nat> {
    if key.Some? && key.value in bySrc && bySrc[key.value] == id then bySrc - {key.value} else bySrc
  }

  /** indexSrc: a reused source key moves to the newer connection. */
  function Reindexed(bySrc: map<SrcKey, nat>, id: nat, before: Option<SrcKey>, key: SrcKey): map<SrcKey, nat> {
    (if before != Some(key) then Unindexed(bySrc, id, before) else bySrc)[key := id]
  }

  /** Only a key that the connection still holds goes. */
  lemma UnindexedMeans(bySrc: map<SrcKey, nat>, id: nat, key: Option<SrcKey>)
    ensures var left := Unindexed(bySrc, id, key);
            && (forall k :: k in left <==> k in bySrc && !(key == Some(k) && bySrc[k] == id))
            && (forall k :: k in left ==> left[k] == bySrc[k])
  {
  }

  /** The key leads to this connection, the key it held before is given up if it
      still held it, and no other changes. */
  lemma ReindexedMeans(bySrc: map<SrcKey, nat>, id: nat, before: Option<SrcKey>, key: SrcKey)
    ensures var moved := Reindexed(bySrc, id, before, key);
            && key in moved && moved[key] == id
            && (forall k :: k != key ==> (k in moved <==> k in bySrc && !(before == Some(k) && bySrc[k] == id)))
            && (forall k :: k in moved && k != key ==> moved[k] == bySrc[k])
  {
  }

  lemma Unlisted(open: map<nat, Conn>, order: seq<nat>, i: nat)
    requires Listed(open, order) && i < |order|
    ensures order[i] in open && Listed(open - {order[i]}, order[..i] + order[i + 1..])
  {
    var id := order[i];
    assert id in multiset(order);
    assert order == order[..i] + [id] + order[i + 1..];
    assert (open - {id}).Keys == open.Keys - {id};
    assert multiset(order[..i] + order[i + 1..]) == multiset(order) - multiset{id};
    assert multiset(open.Keys - {id}) == multiset(open.Keys) - multiset{id};
  }

  /** forget. */
  lemma ForgetSound(b: Book, quiet: int, polls: nat, i: nat)
    requires Sound(b, quiet, polls) && i < |b.order|
    ensures var id := b.order[i];
            id in b.open &&
            Sound(Book(b.open - {id}, b.order[..i] + b.order[i + 1..], Unindexed(b.bySrc, id, b.open[id].srcKey),
                       b.known), quiet, polls)
  {
    SoundMeans(b, quiet, polls);
    Unlisted(b.open, b.order, i);
    var id := b.order[i];
    SoundMeans(Book(b.open - {id}, b.order[..i] + b.order[i + 1..], Unindexed(b.bySrc, id, b.open[id].srcKey), b.known),
               quiet, polls);
  }

  lemma NewlyListed(open: map<nat, Conn>, order: seq<nat>, id: nat, c: Conn)
    requires Listed(open, order) && id !in open
    ensures Listed(open[id := c], order + [id])
  {
    assert open[id := c].Keys == open.Keys + {id};
  }

  lemma Relabelled(open: map<nat, Conn>, order: seq<nat>, id: nat, c: Conn)
    requires Listed(open, order) && id in open
    ensures Listed(open[id := c], order)
  {
    assert open[id := c].Keys == open.Keys;
  }

  lemma SourceMoves(open: map<nat, Conn>, bySrc: map<SrcKey, nat>, id: nat, c: Conn, key: SrcKey)
    requires SourcesLead(open, bySrc) && id in open && c.srcKey == Some(key)
    ensures SourcesLead(open[id := c], Reindexed(bySrc, id, open[id].srcKey, key))
  {
  }

  /** create. */
  lemma CreateSound(b: Book, quiet: int, polls: nat, id: nat, c: Conn, e: Evidence)
    requires Sound(b, quiet, polls) && id !in b.open
    requires c.rec.logID == id && !c.sampled && ConnOk(c, e, quiet)
    ensures Sound(Book(b.open[id := c], b.order + [id], b.bySrc, b.known[id := e]), quiet, polls)
  {
    SoundMeans(b, quiet, polls);
    NewlyListed(b.open, b.order, id, c);
    SoundMeans(Book(b.open[id := c], b.order + [id], b.bySrc, b.known[id := e]), quiet, polls);
  }

  /** Any change of one connection that keeps its source key. */
  lemma ReviseSound(b: Book, quiet: int, polls: nat, id: nat, c: Conn, e: Evidence)
    requires Sound(b, quiet, polls) && id in b.open
    requires c.rec.logID == id && c.srcKey == b.open[id].srcKey && ConnOk(c, e, quiet)
    requires c.sampled ==> c.lastSnapSeq <= polls
    ensures Sound(Book(b.open[id := c], b.order, b.bySrc, b.known[id := e]), quiet, polls)
  {
    SoundMeans(b, quiet, polls);
    Relabelled(b.open, b.order, id, c);
    SoundMeans(Book(b.open[id := c], b.order, b.bySrc, b.known[id := e]), quiet, polls);
  }

  lemma ReindexSound(b: Book, quiet: int, polls: nat, id: nat, c: Conn, key: SrcKey)
    requires Sound(b, quiet, polls) && id in b.open && c.srcKey == Some(key)
    requires id in b.known && c.rec.logID == id && ConnOk(c, b.known[id], quiet)
    requires c.sampled ==> c.lastSnapSeq <= polls
    ensures Sound(Book(b.open[id := c], b.order, Reindexed(b.bySrc, id, b.open[id].srcKey, key), b.known), quiet, polls)
  {
    SoundMeans(b, quiet, polls);
    Relabelled(b.open, b.order, id, c);
    SourceMoves(b.open, b.bySrc, id, c, key);
    SoundMeans(Book(b.open[id := c], b.order, Reindexed(b.bySrc, id, b.open[id].srcKey, key), b.known), quiet, polls);
  }

  lemma NextPollSound(b: Book, quiet: int, polls: nat)
    requires Sound(b, quiet, polls)
    ensures Sound(b, quiet, polls + 1)
  {
    SoundMeans(b, quiet, polls);
    SoundMeans(b, quiet, polls + 1);
  }

  /** One item of a poll is joined to the connection that holds its source key,
      unless the key was reused since; its sample joins what is known. */
  ghost function PolledOne(b: Book, item: Item, at: int, poll: nat, o: Options): Book {
    var key := SrcKey(item.srcIP, item.srcPort);
    if item.srcIP == "" || key !in b.bySrc then b
    else
      var id := b.bySrc[key];
      if id !in b.open || id !in b.known || Reused(b.open[id], item) then b
      else b.(open := b.open[id := Join(b.open[id], item, at, poll, o.stallFloor, o.stallQuiet)],
              known := b.known[id := Joined(b.open[id], b.known[id], item, at, poll, o.stallFloor, o.stallQuiet)])
  }

  ghost function Polled(b: Book, items: seq<Item>, at: int, poll: nat, o: Options): Book {
    if items == [] then b else PolledOne(Polled(b, items[..|items| - 1], at, poll, o), items[|items| - 1], at, poll, o)
  }

  /** What one pass over the connections has made of them, of what is known and
      of what was emitted. */
  datatype Pass = Pass(open: map<nat, Conn>, known: map<nat, Evidence>, emitted: seq<Emission>)

  /** A pass visits the ids one after the other. */
  ghost function Visits(p: Pass, ids: seq<nat>, visit: (Pass, nat) -> Pass): Pass {
    if ids == [] then p else visit(Visits(p, ids[..|ids| - 1], visit), ids[|ids| - 1])
  }

  lemma OneMoreVisit(p: Pass, ids: seq<nat>, i: nat, visit: (Pass, nat) -> Pass)
    requires i < |ids|
    ensures Visits(p, ids[..i + 1], visit) == visit(Visits(p, ids[..i], visit), ids[i])
  {
    assert ids[..i + 1][..i] == ids[..i];
  }

  /** What some connections emit, one after the other. */
  ghost function Emits(order: seq<nat>, f: nat -> seq<Emission>): seq<Emission> {
    if order == [] then [] else Emits(order[..|order| - 1], f) + f(order[|order| - 1])
  }

  lemma EmitsOneMore(order: seq<nat>, i: nat, f: nat -> seq<Emission>)
    requires i < |order|
    ensures Emits(order[..i + 1], f) == Emits(order[..i], f) + f(order[i])
  {
    assert order[..i + 1][..i] == order[..i];
  }

  /** Which connections a sweep ends, and what each of them emits. */
  datatype Sweep = Sweep(ends: Conn -> bool, last: (Conn, Evidence) -> seq<Emission>)

  /** The newest poll does not list it any more. */
  ghost function VanishSweep(at: int, polls: nat, gen: nat): Sweep {
    Sweep(c => Vanished(c, polls), (c, e) => VanishEmits(c, e, at, gen))
  }

  /** The core restarted. */
  ghost function RestartSweep(at: int, gen: nat): Sweep {
    Sweep(c => true, (c, e) => RestartEmits(c, e, at, gen))
  }

  ghost function SweepVisit(w: Sweep): (Pass, nat) -> Pass {
    (p: Pass, id: nat) =>
      if id in p.open && id in p.known && w.ends(p.open[id])
      then Pass(p.open - {id}, p.known, p.emitted + w.last(p.open[id], p.known[id])) else p
  }

  /** The connections a sweep leaves open. */
  ghost function Left(open: map<nat, Conn>, w: Sweep): map<nat, Conn> {
    map id | id in open && !w.ends(open[id]) :: open[id]
  }

  /** What a sweep makes each connection emit. */
  ghost function LastOf(b: Book, w: Sweep): nat -> seq<Emission> {
    id => if id in b.open && id in b.known && w.ends(b.open[id]) then w.last(b.open[id], b.known[id]) else []
  }

  /** The sweep has decided the first i connections and no other. */
  ghost predicate SweptUpTo(before: map<nat, Conn>, open: map<nat, Conn>, todo: seq<nat>, i: nat, w: Sweep)
    requires i <= |todo|
  {
    && (forall id :: id in open ==> id in before && open[id] == before[id])
    && (forall id :: id in before ==> (id in open <==> id !in todo[..i] || !w.ends(before[id])))
  }

  lemma SweptOne(before: map<nat, Conn>, open: map<nat, Conn>, todo: seq<nat>, i: nat, w: Sweep)
    requires i < |todo| && SweptUpTo(before, open, todo, i, w) && todo[i] in before && todo[i] !in todo[..i]
    ensures todo[i] in open && open[todo[i]] == before[todo[i]]
    ensures SweptUpTo(before, if w.ends(open[todo[i]]) then open - {todo[i]} else open, todo, i + 1, w)
  {
    assert todo[..i + 1] == todo[..i] + [todo[i]];
  }

  /** How far a sweep is after its first i connections. */
  ghost predicate SweepAt(b: Book, emitted: seq<Emission>, w: Sweep, i: nat, p: Pass)
    requires i <= |b.order|
  {
    && SweptUpTo(b.open, p.open, b.order, i, w) && p.known == b.known
    && p.emitted == emitted + Emits(b.order[..i], LastOf(b, w))
  }

  lemma {:induction false} SweepReaches(b: Book, quiet: int, polls: nat, emitted: seq<Emission>, w: Sweep, i: nat)
    requires Sound(b, quiet, polls) && i <= |b.order|
    ensures SweepAt(b, emitted, w, i, Visits(Pass(b.open, b.known, emitted), b.order[..i], SweepVisit(w)))
    decreases i
  {
    if i > 0 {
      var start := Pass(b.open, b.known, emitted);
      SweepReaches(b, quiet, polls, emitted, w, i - 1);
      ListedNext(b, quiet, polls, i - 1);
      SweepNext(b, emitted, w, i - 1, Visits(start, b.order[..i - 1], SweepVisit(w)));
      OneMoreVisit(start, b.order, i - 1, SweepVisit(w));
    }
  }

  lemma SweepNext(b: Book, emitted: seq<Emission>, w: Sweep, i: nat, p: Pass)
    requires i < |b.order| && b.order[i] in b.open && b.order[i] in b.known && b.order[i] !in b.order[..i]
    requires SweepAt(b, emitted, w, i, p)
    ensures SweepAt(b, emitted, w, i + 1, SweepVisit(w)(p, b.order[i]))
  {
    SweptOne(b.open, p.open, b.order, i, w);
    MoreEmitted(emitted, b.order, i, LastOf(b, w));
  }

  /** A sweep over all of them ends exactly those it should, in order. */
  lemma SweepDone(b: Book, quiet: int, polls: nat, emitted: seq<Emission>, w: Sweep)
    requires Sound(b, quiet, polls)
    ensures Visits(Pass(b.open, b.known, emitted), b.order, SweepVisit(w)) ==
            Pass(Left(b.open, w), b.known, emitted + Emits(b.order, LastOf(b, w)))
  {
    SweepReaches(b, quiet, polls, emitted, w, |b.order|);
    AllListed(b, quiet, polls);
    assert b.order[..|b.order|] == b.order;
    assert Visits(Pass(b.open, b.known, emitted), b.order, SweepVisit(w)).open == Left(b.open, w);
  }

  /** The next connection of a sweep is still open and as it was. */
  lemma SweepMeets(b: Book, quiet: int, polls: nat, emitted: seq<Emission>, w: Sweep, i: nat)
    requires Sound(b, quiet, polls) && i < |b.order|
    ensures var open := Visits(Pass(b.open, b.known, emitted), b.order[..i], SweepVisit(w)).open;
            b.order[i] in b.open && b.order[i] in open && open[b.order[i]] == b.open[b.order[i]]
  {
    SweepReaches(b, quiet, polls, emitted, w, i);
    ListedOnce(b, quiet, polls, i);
  }

  lemma NewestPoll(b: Book, quiet: int, polls: nat)
    requires Sound(b, quiet, polls) && forall id :: id in b.open ==> !Vanished(b.open[id], polls)
    ensures forall id :: id in b.open && b.open[id].sampled ==> b.open[id].lastSnapSeq == polls
  {
    forall id | id in b.open && b.open[id].sampled ensures b.open[id].lastSnapSeq == polls {
      OpenOne(b, quiet, polls, id);
    }
  }

  /** One connection that goes on after a tick. */
  lemma WatchOne(b: Book, polls: nat, id: nat, now: int, o: Options, gen: nat)
    requires Sound(b, o.stallQuiet, polls) && id in b.open
    ensures var w := Watched(b.open[id], now, o);
            && id in b.known
            && var e := StallNoted(b.open[id], b.known[id], now, o.stallFloor, o.stallQuiet);
            && Honest(OpenRecord(w, now, gen), e, o.stallQuiet) && OpenRecord(w, now, gen).open
            && Sound(Book(b.open[id := w], b.order, b.bySrc, b.known[id := e]), o.stallQuiet, polls)
  {
    OpenOne(b, o.stallQuiet, polls, id);
    WatchedOk(b.open[id], b.known[id], now, o, gen);
    ReviseSound(b, o.stallQuiet, polls, id, Watched(b.open[id], now, o),
                StallNoted(b.open[id], b.known[id], now, o.stallFloor, o.stallQuiet));
  }

  /** What a tick leaves open. */
  function Ticked(open: map<nat, Conn>, now: int, polls: nat, o: Options): map<nat, Conn> {
    map id | id in open && !Over(open[id], now, polls, o) :: Watched(open[id], now, o)
  }

  /** What a tick adds to what is known of a connection. */
  ghost function TickKnowsOne(b: Book, id: nat, now: int, polls: nat, o: Options): Evidence
    requires id in b.known
  {
    if id in b.open && !Over(b.open[id], now, polls, o)
    then StallNoted(b.open[id], b.known[id], now, o.stallFloor, o.stallQuiet) else b.known[id]
  }

  ghost function TickKnows(b: Book, now: int, polls: nat, o: Options): map<nat, Evidence> {
    map id | id in b.known :: TickKnowsOne(b, id, now, polls, o)
  }

  /** The tick has dealt with the first i connections and no other. */
  ghost predicate TickedUpTo(before: map<nat, Conn>, open: map<nat, Conn>, todo: seq<nat>, i: nat, now: int, polls: nat,
                             o: Options)
    requires i <= |todo|
  {
    && (forall id :: id in open ==>
        id in before && open[id] == if id in todo[..i] then Watched(before[id], now, o) else before[id])
    && (forall id :: id in before ==> (id in open <==> id !in todo[..i] || !Over(before[id], now, polls, o)))
  }

  ghost predicate KnownUpTo(b: Book, known: map<nat, Evidence>, todo: seq<nat>, i: nat, now: int, polls: nat,
                            o: Options)
    requires i <= |todo|
  {
    && known.Keys == b.known.Keys
    && forall id :: id in known ==>
      known[id] == if id in todo[..i] then TickKnowsOne(b, id, now, polls, o) else b.known[id]
  }

  lemma TickedOne(before: map<nat, Conn>, open: map<nat, Conn>, todo: seq<nat>, i: nat, now: int, polls: nat,
                  o: Options)
    requires i < |todo| && TickedUpTo(before, open, todo, i, now, polls, o) && todo[i] !in todo[..i]
    requires todo[i] in before
    ensures var id := todo[i];
            id in open && open[id] == before[id] &&
            TickedUpTo(before,
                       if Over(open[id], now, polls, o) then open - {id} else open[id := Watched(open[id], now, o)],
                       todo, i + 1, now, polls, o)
  {
    assert todo[..i + 1] == todo[..i] + [todo[i]];
  }

  lemma KnownOne(b: Book, known: map<nat, Evidence>, todo: seq<nat>, i: nat, now: int, polls: nat, o: Options)
    requires i < |todo| && KnownUpTo(b, known, todo, i, now, polls, o) && todo[i] !in todo[..i]
    requires todo[i] in b.known
    ensures var id := todo[i];
            id in known && known[id] == b.known[id] &&
            KnownUpTo(b, known[id := TickKnowsOne(b, id, now, polls, o)], todo, i + 1, now, polls, o)
  {
    assert todo[..i + 1] == todo[..i] + [todo[i]];
  }

  /** What a tick makes each connection emit. */
  ghost function TickOf(b: Book, now: int, polls: nat, gen: nat, o: Options): nat -> seq<Emission> {
    id => if id in b.open && id in b.known then TickEmits(b.open[id], b.known[id], now, polls, gen, o) else []
  }

  /** One connection of a tick. */
  ghost function TickVisit(now: int, polls: nat, gen: nat, o: Options): (Pass, nat) -> Pass {
    (p: Pass, id: nat) =>
      if id !in p.open || id !in p.known then p
      else var c, e := p.open[id], p.known[id];
      Pass(if Over(c, now, polls, o) then p.open - {id} else p.open[id := Watched(c, now, o)],
           p.known[id := if Over(c, now, polls, o) then e else StallNoted(c, e, now, o.stallFloor, o.stallQuiet)],
           p.emitted + TickEmits(c, e, now, polls, gen, o))
  }

  /** How far a tick is after its first i connections. */
  ghost predicate TickAt(b: Book, emitted: seq<Emission>, i: nat, p: Pass, now: int, polls: nat, gen: nat, o: Options)
    requires i <= |b.order|
  {
    && TickedUpTo(b.open, p.open, b.order, i, now, polls, o) && KnownUpTo(b, p.known, b.order, i, now, polls, o)
    && p.emitted == emitted + Emits(b.order[..i], TickOf(b, now, polls, gen, o))
  }

  /** What a tick makes of a connection it meets as it was. */
  lemma TickVisited(b: Book, id: nat, p: Pass, now: int, polls: nat, gen: nat, o: Options)
    requires id in b.open && id in b.known && id in p.open && id in p.known
    requires p.open[id] == b.open[id] && p.known[id] == b.known[id]
    ensures var p' := TickVisit(now, polls, gen, o)(p, id);
            && p'.open == (if Over(p.open[id], now, polls, o) then p.open - {id}
                           else p.open[id := Watched(p.open[id], now, o)])
            && p'.known == p.known[id := TickKnowsOne(b, id, now, polls, o)]
            && p'.emitted == p.emitted + TickOf(b, now, polls, gen, o)(id)
  {
  }

  lemma TickNext(b: Book, emitted: seq<Emission>, i: nat, p: Pass, now: int, polls: nat, gen: nat, o: Options)
    requires i < |b.order| && b.order[i] in b.open && b.order[i] in b.known && b.order[i] !in b.order[..i]
    requires TickAt(b, emitted, i, p, now, polls, gen, o)
    ensures TickAt(b, emitted, i + 1, TickVisit(now, polls, gen, o)(p, b.order[i]), now, polls, gen, o)
  {
    TickedOne(b.open, p.open, b.order, i, now, polls, o);
    KnownOne(b, p.known, b.order, i, now, polls, o);
    TickVisited(b, b.order[i], p, now, polls, gen, o);
    MoreEmitted(emitted, b.order, i, TickOf(b, now, polls, gen, o));
  }

  lemma MoreEmitted(emitted: seq<Emission>, order: seq<nat>, i: nat, f: nat -> seq<Emission>)
    requires i < |order|
    ensures emitted + Emits(order[..i], f) + f(order[i]) == emitted + Emits(order[..i + 1], f)
  {
    EmitsOneMore(order, i, f);
  }

  lemma {:induction false} TickReaches(b: Book, emitted: seq<Emission>, i: nat, now: int, polls: nat, gen: nat,
                                       o: Options) returns (p: Pass)
    requires Sound(b, o.stallQuiet, polls) && i <= |b.order|
    ensures p == Visits(Pass(b.open, b.known, emitted), b.order[..i], TickVisit(now, polls, gen, o))
    ensures TickAt(b, emitted, i, p, now, polls, gen, o)
    decreases i
  {
    if i == 0 {
      p := Pass(b.open, b.known, emitted);
    } else {
      var q := TickReaches(b, emitted, i - 1, now, polls, gen, o);
      ListedNext(b, o.stallQuiet, polls, i - 1);
      TickNext(b, emitted, i - 1, q, now, polls, gen, o);
      OneMoreVisit(Pass(b.open, b.known, emitted), b.order, i - 1, TickVisit(now, polls, gen, o));
      p := TickVisit(now, polls, gen, o)(q, b.order[i - 1]);
    }
  }

  /** A tick over all of them ends exactly those whose time is over. */
  lemma TickDone(b: Book, emitted: seq<Emission>, now: int, polls: nat, gen: nat, o: Options)
    requires Sound(b, o.stallQuiet, polls)
    ensures Visits(Pass(b.open, b.known, emitted), b.order, TickVisit(now, polls, gen, o)) ==
            Pass(Ticked(b.open, now, polls, o), TickKnows(b, now, polls, o),
                 emitted + Emits(b.order, TickOf(b, now, polls, gen, o)))
  {
    var p := TickReaches(b, emitted, |b.order|, now, polls, gen, o);
    AllListed(b, o.stallQuiet, polls);
    assert b.order[..|b.order|] == b.order;
    TickedAll(b, p.open, p.known, b.order, now, polls, o);
  }

  /** The next connection of a tick is still open and as it was. */
  lemma TickMeets(b: Book, emitted: seq<Emission>, i: nat, now: int, polls: nat, gen: nat, o: Options)
    requires Sound(b, o.stallQuiet, polls) && i < |b.order|
    ensures var p := Visits(Pass(b.open, b.known, emitted), b.order[..i], TickVisit(now, polls, gen, o));
            && b.order[i] in p.open && b.order[i] in p.known
            && b.order[i] in b.open && p.open[b.order[i]] == b.open[b.order[i]]
  {
    var p := TickReaches(b, emitted, i, now, polls, gen, o);
    ListedNext(b, o.stallQuiet, polls, i);
  }

  lemma TickedAll(b: Book, open: map<nat, Conn>, known: map<nat, Evidence>, todo: seq<nat>, now: int, polls: nat,
                  o: Options)
    requires TickedUpTo(b.open, open, todo, |todo|, now, polls, o) && KnownUpTo(b, known, todo, |todo|, now, polls, o)
    requires forall id :: id in b.open ==> id in todo
    ensures open == Ticked(b.open, now, polls, o) && known == TickKnows(b, now, polls, o)
  {
    assert todo[..|todo|] == todo;
    assert forall id :: id in known ==> known[id] == TickKnowsOne(b, id, now, polls, o);
  }

  /** Silent for the whole TTL, and not for a half close whose grace is over. */
  predicate IsOrphan(c: Conn, now: int, polls: nat, o: Options) {
    !GraceOver(c, now, o.halfCloseGrace, polls) && now - c.lastSeenAt >= o.orphanTTL
  }

  /** How many of these connections a tick gives up as orphans. */
  ghost function Orphans(b: Book, ids: seq<nat>, now: int, polls: nat, o: Options): nat {
    if ids == [] then 0
    else Orphans(b, ids[..|ids| - 1], now, polls, o) + Orphan(b, ids[|ids| - 1], now, polls, o)
  }

  ghost function Orphan(b: Book, id: nat, now: int, polls: nat, o: Options): nat {
    if id in b.open && IsOrphan(b.open[id], now, polls, o) then 1 else 0
  }

  lemma OrphansOneMore(b: Book, ids: seq<nat>, i: nat, now: int, polls: nat, o: Options)
    requires i < |ids|
    ensures Orphans(b, ids[..i + 1], now, polls, o) == Orphans(b, ids[..i], now, polls, o) +
      Orphan(b, ids[i], now, polls, o)
  {
    assert ids[..i + 1][..i] == ids[..i];
  }

  /** The ids held open or finished. */
  ghost function Tracked(open: map<nat, Conn>, done: seq<nat>): set<nat> {
    open.Keys + set x | x in done
  }

  lemma RetiredStaysTracked(open: map<nat, Conn>, done: seq<nat>, capacity: nat, id: nat)
    requires id in open
    ensures Tracked(open - {id}, Remember(done, capacity, id)) <= Tracked(open, done)
    ensures id in Tracked(open - {id}, Remember(done, capacity, id))
  {
    RememberAdds(done, capacity, id);
    var d := Remember(done, capacity, id);
    forall x | x in Tracked(open - {id}, d) ensures x in Tracked(open, done) {
      if x in d {
        assert x in (set y | y in d);
      }
    }
  }

  lemma RevisedStaysTracked(open: map<nat, Conn>, done: seq<nat>, id: nat, c: Conn)
    ensures Tracked(open[id := c], done) <= Tracked(open, done) + {id}
    ensures id in open ==> Tracked(open[id := c], done) == Tracked(open, done)
  {
  }
}
