/** What one log line does to the assembler's books and to what it has emitted
    (internal/sessionasm/sessionasm.go). */
module SessionLine {
  import opened Common
  import opened DoneIds
  import opened SessionConn
  import opened SessionIndex
  import opened SessionLists

  /** What every line is folded with: the table that reads a reason off an error
      text, the core's generation, and the cap on open connections. */
  datatype Rules = Rules(classify: string -> Reason, gen: nat, maxOpen: nat)

  /** The books, and the ids of finished connections. */
  datatype Shelf = Shelf(book: Book, done: seq<nat>)

  /** A line starts a connection. */
  ghost predicate Starts(l: Line, tracked: set<nat>) {
    l.hasLogID && (l.event.InboundFrom? || l.logID !in tracked)
  }

  /** A line goes on with an open connection. */
  ghost predicate Continues(l: Line, open: map<nat, Conn>) {
    l.hasLogID && l.logID in open && !l.event.InboundFrom?
  }

  /** The open connections after a line of connection id, which was at c. */
  ghost function OpenAfter(open: map<nat, Conn>, id: nat, c: Conn, l: Line, at: int, rules: Rules): map<nat, Conn> {
    match After(c, l, at, rules.classify)
    case Some(c') => open[id := c']
    case None => open - {id}
  }

  /** The source index after it. */
  ghost function IndexAfter(bySrc: map<SrcKey, nat>, id: nat, c: Conn, l: Line, at: int, rules: Rules)
    : map<SrcKey, nat>
  {
    if l.event.InboundFrom? && l.srcIP != "" then Reindexed(bySrc, id, c.srcKey, SrcKey(l.srcIP, l.srcPort))
    else if After(c, l, at, rules.classify).None? then Unindexed(bySrc, id, c.srcKey)
    else bySrc
  }

  /** The creation order after it: only a connection that ended leaves it. */
  ghost function OrderAfter(order: seq<nat>, id: nat, c: Conn, l: Line, at: int, rules: Rules): seq<nat> {
    if After(c, l, at, rules.classify).None? then Without(order, id) else order
  }

  /** The finished ids after it. */
  ghost function DoneAfter(done: seq<nat>, id: nat, c: Conn, l: Line, at: int, rules: Rules): seq<nat> {
    if After(c, l, at, rules.classify).None? then Remember(done, rules.maxOpen, id) else done
  }

  /** What a line may change. */
  datatype Effect = OnOpen | OnOrder | OnIndex | OnKnown | OnDone | OnEmitted

  /** A line of the open connection id changed this as it should. */
  ghost predicate Had(effect: Effect, s: Shelf, s': Shelf, news: seq<Emission>, id: nat, l: Line, at: int,
                      rules: Rules) {
    var b, b' := s.book, s'.book;
    && id in b.open && id in b.known
    && var c, e := b.open[id], b.known[id];
    && match effect
       case OnOpen => b'.open == OpenAfter(b.open, id, c, l, at, rules)
       case OnOrder => b'.order == OrderAfter(b.order, id, c, l, at, rules)
       case OnIndex => b'.bySrc == IndexAfter(b.bySrc, id, c, l, at, rules)
       case OnKnown => b'.known == b.known[id := KnownAfter(c, e, l, rules.classify)]
       case OnDone => s'.done == DoneAfter(s.done, id, c, l, at, rules)
       case OnEmitted => news == LineEmits(c, e, l, at, rules.classify, rules.gen)
  }

  ghost function Missing(s: Shelf, s': Shelf, news: seq<Emission>, id: nat, l: Line, at: int,
                         rules: Rules): set<Effect> {
    set effect: Effect | !Had(effect, s, s', news, id, l, at, rules)
  }

  /** The line was folded into connection id, emitting `news`. */
  ghost predicate Folds(s: Shelf, s': Shelf, news: seq<Emission>, id: nat, l: Line, at: int, rules: Rules) {
    Missing(s, s', news, id, l, at, rules) == {}
  }

  lemma FoldsMeans(s: Shelf, s': Shelf, news: seq<Emission>, id: nat, l: Line, at: int, rules: Rules)
    ensures Folds(s, s', news, id, l, at, rules) <==>
      && Had(OnOpen, s, s', news, id, l, at, rules)
      && Had(OnOrder, s, s', news, id, l, at, rules)
      && Had(OnIndex, s, s', news, id, l, at, rules)
      && Had(OnKnown, s, s', news, id, l, at, rules)
      && Had(OnDone, s, s', news, id, l, at, rules)
      && Had(OnEmitted, s, s', news, id, l, at, rules)
  {
    var missing := Missing(s, s', news, id, l, at, rules);
    assert OnOpen in missing <==> !Had(OnOpen, s, s', news, id, l, at, rules);
    assert OnOrder in missing <==> !Had(OnOrder, s, s', news, id, l, at, rules);
    assert OnIndex in missing <==> !Had(OnIndex, s, s', news, id, l, at, rules);
    assert OnKnown in missing <==> !Had(OnKnown, s, s', news, id, l, at, rules);
    assert OnDone in missing <==> !Had(OnDone, s, s', news, id, l, at, rules);
    assert OnEmitted in missing <==> !Had(OnEmitted, s, s', news, id, l, at, rules);
  }

  /** A closing line that ends connection id emits its last words. */
  lemma EndingFolds(s: Shelf, s': Shelf, news: seq<Emission>, id: nat, l: Line, at: int, rules: Rules)
    requires id in s.book.open && id in s.book.known
    requires Closing(l.event) && After(s.book.open[id], l, at, rules.classify).None?
    requires Leaves(s, s', id, rules.maxOpen)
    requires s'.book.known == s.book.known[id := Heard(s.book.known[id], Stated(l, rules.classify).reason)]
    requires news == Report(LastWords(s.book.open[id], l, at, rules.classify, rules.gen),
                            Heard(s.book.known[id], Stated(l, rules.classify).reason))
    ensures Folds(s, s', news, id, l, at, rules)
  {
    FoldsMeans(s, s', news, id, l, at, rules);
  }

  /** Connection id leaves every index and is remembered as done. */
  ghost predicate Leaves(s: Shelf, s': Shelf, id: nat, maxOpen: nat) {
    && id in s.book.open && s'.book.open == s.book.open - {id} && s'.book.order == Without(s.book.order, id)
    && s'.book.bySrc == Unindexed(s.book.bySrc, id, s.book.open[id].srcKey)
    && s'.done == Remember(s.done, maxOpen, id)
  }

  /** It may have been revised before it left. */
  lemma LeavesRevised(s: Shelf, s1: Shelf, s': Shelf, id: nat, c: Conn, maxOpen: nat)
    requires id in s.book.open && c.srcKey == s.book.open[id].srcKey && Leaves(s1, s', id, maxOpen)
    requires s1.book.open == s.book.open[id := c] && s1.book.order == s.book.order && s1.book.bySrc == s.book.bySrc
    requires s1.done == s.done
    ensures Leaves(s, s', id, maxOpen)
  {
    assert s1.book.open - {id} == s.book.open - {id};
  }

  /** The connection that makes room for a new one: the one that held its id,
      or else the oldest once the cap is reached. */
  ghost function Leaver(b: Book, id: nat, maxOpen: nat): Option<nat> {
    if id in b.open then Some(id) else if |b.order| >= maxOpen && |b.order| > 0 then Some(b.order[0]) else None
  }

  ghost function RoomOpen(b: Book, id: nat, maxOpen: nat): map<nat, Conn> {
    match Leaver(b, id, maxOpen)
    case Some(x) => b.open - {x}
    case None => b.open
  }

  ghost function RoomIndex(b: Book, id: nat, maxOpen: nat): map<SrcKey, nat> {
    match Leaver(b, id, maxOpen)
    case Some(x) => if x in b.open then Unindexed(b.bySrc, x, b.open[x].srcKey) else b.bySrc
    case None => b.bySrc
  }

  ghost function RoomOrder(b: Book, id: nat, maxOpen: nat): seq<nat> {
    match Leaver(b, id, maxOpen)
    case Some(x) => Without(b.order, x)
    case None => b.order
  }

  ghost function RoomDone(s: Shelf, id: nat, maxOpen: nat): seq<nat> {
    match Leaver(s.book, id, maxOpen)
    case Some(x) => Remember(s.done, maxOpen, x)
    case None => s.done
  }

  /** The cap is reached and the oldest connection has to go. */
  ghost predicate Evicts(b: Book, id: nat, maxOpen: nat) {
    id !in b.open && |b.order| >= maxOpen
  }

  /** Room was made for id. */
  ghost predicate Roomy(s: Shelf, s': Shelf, id: nat, maxOpen: nat) {
    && s'.book.open == RoomOpen(s.book, id, maxOpen) && s'.book.order == RoomOrder(s.book, id, maxOpen)
    && s'.book.bySrc == RoomIndex(s.book, id, maxOpen) && s'.done == RoomDone(s, id, maxOpen)
  }

  lemma RoomMade(s: Shelf, s': Shelf, id: nat, maxOpen: nat)
    requires id !in s.book.open && |s.book.order| > 0 && |s.book.order| >= maxOpen
    requires Leaves(s, s', s.book.order[0], maxOpen)
    ensures Roomy(s, s', id, maxOpen)
  {
  }

  /** What the connection that held the id emits: how it ended is not known. An
      evicted one emits nothing. */
  ghost function Collided(b: Book, l: Line, at: int, rules: Rules): seq<Emission> {
    if l.logID in b.open && l.logID in b.known
    then CollideEmits(b.open[l.logID], b.known[l.logID], at, rules.gen) else []
  }

  /** The first line of a connection changed this as it should. */
  ghost predicate Gave(effect: Effect, s: Shelf, s': Shelf, news: seq<Emission>, l: Line, at: int, rules: Rules) {
    var b, b', id, c := s.book, s'.book, l.logID, NewConn(l, at);
    match effect
    case OnOpen => b'.open == OpenAfter(RoomOpen(b, id, rules.maxOpen), id, c, l, at, rules)
    case OnOrder => b'.order == OrderAfter(RoomOrder(b, id, rules.maxOpen) + [id], id, c, l, at, rules)
    case OnDone => s'.done == DoneAfter(RoomDone(s, id, rules.maxOpen), id, c, l, at, rules)
    case OnIndex => b'.bySrc == IndexAfter(RoomIndex(b, id, rules.maxOpen), id, c, l, at, rules)
    case OnKnown => b'.known == b.known[id := KnownAfter(c, NOTHING, l, rules.classify)]
    case OnEmitted => news == Collided(b, l, at, rules) + LineEmits(c, NOTHING, l, at, rules.classify, rules.gen)
  }

  ghost function Lacking(s: Shelf, s': Shelf, news: seq<Emission>, l: Line, at: int, rules: Rules): set<Effect> {
    set effect: Effect | !Gave(effect, s, s', news, l, at, rules)
  }

  /** The line began a connection, and `news` was emitted on the way. */
  ghost predicate Begins(s: Shelf, s': Shelf, news: seq<Emission>, l: Line, at: int, rules: Rules) {
    Lacking(s, s', news, l, at, rules) == {}
  }

  lemma BeginsMeans(s: Shelf, s': Shelf, news: seq<Emission>, l: Line, at: int, rules: Rules)
    ensures Begins(s, s', news, l, at, rules) <==>
      && Gave(OnOpen, s, s', news, l, at, rules)
      && Gave(OnOrder, s, s', news, l, at, rules)
      && Gave(OnIndex, s, s', news, l, at, rules)
      && Gave(OnKnown, s, s', news, l, at, rules)
      && Gave(OnDone, s, s', news, l, at, rules)
      && Gave(OnEmitted, s, s', news, l, at, rules)
  {
    var lacking := Lacking(s, s', news, l, at, rules);
    assert OnOpen in lacking <==> !Gave(OnOpen, s, s', news, l, at, rules);
    assert OnOrder in lacking <==> !Gave(OnOrder, s, s', news, l, at, rules);
    assert OnIndex in lacking <==> !Gave(OnIndex, s, s', news, l, at, rules);
    assert OnKnown in lacking <==> !Gave(OnKnown, s, s', news, l, at, rules);
    assert OnDone in lacking <==> !Gave(OnDone, s, s', news, l, at, rules);
    assert OnEmitted in lacking <==> !Gave(OnEmitted, s, s', news, l, at, rules);
  }

  /** A connection was created, last in order, after room was made for it. */
  ghost predicate CreatedAs(s: Shelf, s': Shelf, l: Line, at: int, maxOpen: nat) {
    var b, b', id := s.book, s'.book, l.logID;
    && b'.open == RoomOpen(b, id, maxOpen)[id := NewConn(l, at)] && b'.order == RoomOrder(b, id, maxOpen) + [id]
    && b'.bySrc == RoomIndex(b, id, maxOpen) && b'.known == b.known[id := NOTHING]
    && s'.done == RoomDone(s, id, maxOpen)
  }

  /** Making room, creating the connection and folding its first line in. */
  lemma FoldsBegin(s: Shelf, s1: Shelf, s': Shelf, news: seq<Emission>, l: Line, at: int, rules: Rules)
    requires l.logID !in s.book.open && CreatedAs(s, s1, l, at, rules.maxOpen)
    requires Folds(s1, s', news, l.logID, l, at, rules)
    ensures Begins(s, s', news, l, at, rules)
  {
    FoldsMeans(s1, s', news, l.logID, l, at, rules);
    SameElsewhere(RoomOpen(s.book, l.logID, rules.maxOpen), l.logID, NewConn(l, at), l, at, rules);
    BeginsMeans(s, s', news, l, at, rules);
  }

  lemma SameElsewhere(open: map<nat, Conn>, id: nat, c: Conn, l: Line, at: int, rules: Rules)
    ensures OpenAfter(open[id := c], id, c, l, at, rules) == OpenAfter(open, id, c, l, at, rules)
  {
  }

  /** The connection that held the id before ended first. */
  lemma CollidesFirst(s: Shelf, s1: Shelf, s': Shelf, news: seq<Emission>, l: Line, at: int, rules: Rules)
    requires l.logID in s.book.known && |s1.book.order| < rules.maxOpen
    requires Leaves(s, s1, l.logID, rules.maxOpen) && s1.book.known == s.book.known
    requires Begins(s1, s', news, l, at, rules)
    ensures Begins(s, s', CollideEmits(s.book.open[l.logID], s.book.known[l.logID], at, rules.gen) + news, l, at, rules)
  {
    BeginsMeans(s1, s', news, l, at, rules);
    BeginsMeans(s, s', CollideEmits(s.book.open[l.logID], s.book.known[l.logID], at, rules.gen) + news, l, at, rules);
  }
}
