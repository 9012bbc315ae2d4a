/** One connection being assembled, and how far its record may go: never beyond
    what was observed (internal/sessionasm/sessionasm.go). */
module SessionConn {
  import opened Common

  datatype Reason = NoReason | Unknown | EOF | Reset | Timeout | HandshakeFailed | Canceled | UDPIdle | DialFailed
      | AuthFailed | CoreRestart

  datatype Event =
    | InboundFrom | InboundTo | OutboundTo | DialFailure | AuthFailure | HandshakeFailure | ConnectionClosed
    | HalfFinished | HalfCanceled | OtherEvent

  datatype Direction = Upload | Download | NoDirection

  /** singboxlog.Line. Instants are nanoseconds, 0 is Go's zero time. */
  datatype Line = Line(hasLogID: bool, logID: nat, at: int, elapsedMS: int, event: Event, srcIP: string,
                       srcPort: string, dstHost: string, direction: Direction, packet: bool, error: string)

  datatype Item = Item(srcIP: string, srcPort: string, dstHost: string, upload: int, download: int, start: int)

  datatype SrcKey = SrcKey(ip: string, port: string)

  /** The parts of model.ConnRecord that this package's rule of honesty is
      about. stalledAt 0 is "not stalled". */
  datatype ConnRecord = ConnRecord(logID: nat, srcIP: string, srcPort: string, dstHost: string, startedAt: int,
                                   upload: int, download: int, bytesKnown: bool, stalledAt: int, open: bool,
                                   endedAt: int, reason: Reason, error: string, durationMS: int, generation: nat)

  datatype Candidate = Candidate(reason: Reason, error: string, rank: nat)

  const RANK_SOFT := 1
  const RANK_EOF := 2
  const RANK_ERROR := 3
  const RANK_TERMINAL := 4

  datatype Options = Options(maxOpen: nat, orphanTTL: int, snapshotEvery: int, stallFloor: int, stallQuiet: int,
                             halfCloseGrace: int)

  /** One item of one poll that was joined to a connection. */
  datatype Sample = Sample(at: int, upload: int, download: int, poll: nat)

  /** What a connection's samples and lines said so far: the reasons its lines
      stated, the sample since which no byte moved, and the two equal samples
      behind its stall mark. */
  datatype Evidence = Evidence(samples: seq<Sample>, said: set<Reason>, quietFrom: nat, stallFrom: nat, stallTo: nat)

  /** Every sample from k on shows the same bytes. */
  ghost predicate QuietFrom(samples: seq<Sample>, k: nat, upload: int, download: int) {
    k < |samples| && forall i :: k <= i < |samples| ==> samples[i].upload == upload && samples[i].download == download
  }

  /** Bytes are known only from a snapshot and are the last sample's; a stall
      means equal samples, from its instant to the newest, of which two bracket
      at least `quiet`. */
  ghost predicate Measures(r: ConnRecord, e: Evidence, quiet: int) {
    && (r.bytesKnown <==> e.samples != [])
    && (r.bytesKnown ==> var last := e.samples[|e.samples| - 1]; r.upload == last.upload && r.download == last.download)
    && (r.stalledAt != 0 ==>
          && QuietFrom(e.samples, e.stallFrom, r.upload, r.download)
          && e.stallFrom <= e.stallTo < |e.samples|
          && r.stalledAt == e.samples[e.stallFrom].at && e.samples[e.stallTo].at - r.stalledAt >= quiet)
  }

  /** An ending is named only if a line named it, or the core restarted. */
  ghost predicate MayName(e: Evidence, r: Reason) {
    r == Unknown || r == CoreRestart || r in e.said
  }

  datatype Claim = Bytes | Ending

  ghost predicate Supported(claim: Claim, r: ConnRecord, e: Evidence, quiet: int) {
    match claim
    case Bytes => Measures(r, e, quiet)
    case Ending => if r.open then r.reason == Unknown else MayName(e, r.reason)
  }

  ghost function Invented(r: ConnRecord, e: Evidence, quiet: int): set<Claim> {
    set claim: Claim | !Supported(claim, r, e, quiet)
  }

  /** A record states no more than its connection's samples and lines did. */
  ghost predicate Honest(r: ConnRecord, e: Evidence, quiet: int) {
    Invented(r, e, quiet) == {}
  }

  lemma HonestMeans(r: ConnRecord, e: Evidence, quiet: int)
    ensures Honest(r, e, quiet) <==>
      Measures(r, e, quiet) && if r.open then r.reason == Unknown else MayName(e, r.reason)
  {
    assert Bytes in Invented(r, e, quiet) <==> !Measures(r, e, quiet);
    assert Ending in Invented(r, e, quiet) <==> !Supported(Ending, r, e, quiet);
  }

  /** conn: the in-flight state of one log id. */
  datatype Conn = Conn(
    rec: ConnRecord, lastSeenAt: int, lastElapsedMS: int, haveOutbound: bool, closedUp: bool, closedDown: bool,
    close: Candidate, firstHalfAt: int, sampled: bool, lastSnapAt: int, lastByteChangeAt: int, lastSnapSeq: nat,
    lastEmitAt: int, srcKey: Option<SrcKey>)

  function NewConn(l: Line, at: int): Conn {
    var started := at - l.elapsedMS * 1_000_000;
    Conn(ConnRecord(l.logID, "", "", "", started, 0, 0, false, 0, false, 0, NoReason, "", 0, 0),
         at, l.elapsedMS, false, false, false, Candidate(NoReason, "", 0), 0, false, 0, 0, 0, started, None)
  }

  /** The bytes were different before sample k, if there was one. */
  ghost predicate Moved(samples: seq<Sample>, k: nat, upload: int, download: int) {
    0 < k <= |samples| ==> samples[k - 1].upload != upload || samples[k - 1].download != download
  }

  ghost predicate ConnOk(c: Conn, e: Evidence, quiet: int) {
    && Measures(c.rec, e, quiet)
    && c.sampled == c.rec.bytesKnown
    && (c.sampled ==>
          && c.lastSnapAt == e.samples[|e.samples| - 1].at && c.lastSnapSeq == e.samples[|e.samples| - 1].poll
          && QuietFrom(e.samples, e.quietFrom, c.rec.upload, c.rec.download)
          && c.lastByteChangeAt == e.samples[e.quietFrom].at != 0
          && Moved(e.samples, e.quietFrom, c.rec.upload, c.rec.download))
    && (if c.close.rank > 0 then c.close.reason in e.said else c.close.reason == NoReason)
  }

  const NOTHING := Evidence([], {}, 0, 0, 0)

  lemma NewConnOk(l: Line, at: int, quiet: int)
    ensures ConnOk(NewConn(l, at), NOTHING, quiet) && !NewConn(l, at).sampled && NewConn(l, at).rec.logID == l.logID
  {
  }

  /** evalStall: two samples must bracket the quiet window. */
  function EvalStall(c: Conn, now: int, floor: int, quiet: int): Conn {
    if !c.sampled || c.rec.stalledAt != 0 || now - c.rec.startedAt <= floor || c.lastSnapAt - c.lastByteChangeAt < quiet
    then c
    else c.(rec := c.rec.(stalledAt := c.lastByteChangeAt))
  }

  function StallNoted(c: Conn, e: Evidence, now: int, floor: int, quiet: int): Evidence {
    if EvalStall(c, now, floor, quiet) == c || e.samples == [] then e
    else e.(stallFrom := e.quietFrom, stallTo := |e.samples| - 1)
  }

  lemma EvalStallHonest(c: Conn, e: Evidence, now: int, floor: int, quiet: int)
    requires ConnOk(c, e, quiet)
    ensures ConnOk(EvalStall(c, now, floor, quiet), StallNoted(c, e, now, floor, quiet), quiet)
  {
  }

  /** The counters of join: byte movement, or the first sample, starts the
      quiet window over. */
  function Measure(c: Conn, item: Item, at: int, poll: nat): Conn {
    var moved := !c.sampled || item.upload != c.rec.upload || item.download != c.rec.download;
    c.(lastByteChangeAt := if moved then at else c.lastByteChangeAt,
       rec := c.rec.(stalledAt := if moved then 0 else c.rec.stalledAt,
                     upload := item.upload, download := item.download, bytesKnown := true),
       sampled := true, lastSnapAt := at, lastSnapSeq := poll, lastSeenAt := at)
  }

  /** join: what one listed item tells about its connection. */
  function Join(c: Conn, item: Item, at: int, poll: nat, floor: int, quiet: int): Conn {
    EvalStall(Filled(Measure(c, item, at, poll), item), at, floor, quiet)
  }

  function Filled(c: Conn, item: Item): Conn {
    if c.rec.dstHost == "" then c.(rec := c.rec.(dstHost := item.dstHost)) else c
  }

  function Measured(c: Conn, e: Evidence, item: Item, at: int, poll: nat): Evidence {
    e.(samples := e.samples + [Sample(at, item.upload, item.download, poll)],
       quietFrom := if c.sampled && item.upload == c.rec.upload && item.download == c.rec.download
                    then e.quietFrom else |e.samples|)
  }

  lemma MeasureHonest(c: Conn, e: Evidence, item: Item, at: int, poll: nat, quiet: int)
    requires ConnOk(c, e, quiet) && at != 0
    ensures ConnOk(Measure(c, item, at, poll), Measured(c, e, item, at, poll), quiet)
  {
  }

  function Joined(c: Conn, e: Evidence, item: Item, at: int, poll: nat, floor: int, quiet: int): Evidence {
    StallNoted(Filled(Measure(c, item, at, poll), item), Measured(c, e, item, at, poll), at, floor, quiet)
  }

  lemma JoinHonest(c: Conn, e: Evidence, item: Item, at: int, poll: nat, floor: int, quiet: int)
    requires ConnOk(c, e, quiet) && at != 0
    ensures ConnOk(Join(c, item, at, poll, floor, quiet), Joined(c, e, item, at, poll, floor, quiet), quiet)
    ensures Join(c, item, at, poll, floor, quiet).sampled && Join(c, item, at, poll, floor, quiet).lastSnapSeq == poll
    ensures Joined(c, e, item, at, poll, floor, quiet).samples == e.samples +
      [Sample(at, item.upload, item.download, poll)]
  {
    MeasureHonest(c, e, item, at, poll, quiet);
    EvalStallHonest(Filled(Measure(c, item, at, poll), item), Measured(c, e, item, at, poll), at, floor, quiet);
  }

  /** The record finish emits. */
  function FinalRecord(c: Conn, cand: Candidate, endedAt: int, fromClock: bool, gen: nat): ConnRecord {
    c.rec.(open := false, endedAt := endedAt, generation := gen, error := cand.error,
           reason := if cand.reason == NoReason then Unknown else cand.reason,
           durationMS := if fromClock then Millis(endedAt - c.rec.startedAt) else c.lastElapsedMS)
  }

  lemma FinalHonest(c: Conn, e: Evidence, cand: Candidate, endedAt: int, fromClock: bool, gen: nat, quiet: int)
    requires ConnOk(c, e, quiet) && (cand.reason == NoReason || MayName(e, cand.reason))
    ensures var r := FinalRecord(c, cand, endedAt, fromClock, gen);
            Honest(r, e, quiet) && !r.open && r.logID == c.rec.logID && r.generation == gen
  {
    HonestMeans(FinalRecord(c, cand, endedAt, fromClock, gen), e, quiet);
  }

  /** The record emitOpen emits of a connection that still runs. */
  function OpenRecord(c: Conn, now: int, gen: nat): ConnRecord {
    c.rec.(open := true, generation := gen, reason := Unknown, durationMS := Millis(now - c.rec.startedAt))
  }

  /** What Tick leaves of a connection that goes on. */
  function Watched(c: Conn, now: int, o: Options): Conn {
    var w := EvalStall(c, now, o.stallFloor, o.stallQuiet);
    if now - c.lastEmitAt >= o.snapshotEvery then w.(lastEmitAt := now) else w
  }

  lemma WatchedOk(c: Conn, e: Evidence, now: int, o: Options, gen: nat)
    requires ConnOk(c, e, o.stallQuiet)
    ensures var e' := StallNoted(c, e, now, o.stallFloor, o.stallQuiet);
            var w := Watched(c, now, o);
            && ConnOk(w, e', o.stallQuiet) && Honest(OpenRecord(w, now, gen), e', o.stallQuiet)
            && OpenRecord(w, now, gen).open
            && w.rec.logID == c.rec.logID && w.srcKey == c.srcKey && w.sampled == c.sampled
            && w.lastSnapSeq == c.lastSnapSeq
  {
    EvalStallHonest(c, e, now, o.stallFloor, o.stallQuiet);
    HonestMeans(OpenRecord(Watched(c, now, o), now, gen), StallNoted(c, e, now, o.stallFloor, o.stallQuiet),
                o.stallQuiet);
  }

  const SNAPSHOT_START_SKEW := 30_000_000_000

  /** The item started well before this connection: its source port was reused. */
  predicate Reused(c: Conn, item: Item) {
    item.start != 0 && item.start < c.rec.startedAt - SNAPSHOT_START_SKEW
  }

  /** A connection some poll listed and the newest one does not. */
  predicate Vanished(c: Conn, polls: nat) {
    c.sampled && c.lastSnapSeq < polls
  }

  /** Tick ends a connection: a half close and its grace, or silence for the TTL. */
  predicate Over(c: Conn, now: int, polls: nat, o: Options) {
    GraceOver(c, now, o.halfCloseGrace, polls) || now - c.lastSeenAt >= o.orphanTTL
  }

  /** One half closed long enough ago, and the newest poll does not list it. */
  predicate GraceOver(c: Conn, now: int, grace: int, polls: nat) {
    c.firstHalfAt != 0 && now - c.firstHalfAt >= grace && !(c.sampled && c.lastSnapSeq >= polls)
  }

  /** offer: keep the strongest close evidence, the first of equals. */
  function Offer(c: Conn, cand: Candidate): Conn {
    if cand.rank > c.close.rank then c.(close := cand) else c
  }

  function FoldedRec(r: ConnRecord, l: Line): ConnRecord {
    match l.event
    case InboundFrom => r.(srcIP := l.srcIP, srcPort := l.srcPort)
    case InboundTo => if l.dstHost != "" then r.(dstHost := l.dstHost) else r
    case OutboundTo => if r.dstHost == "" then r.(dstHost := l.dstHost) else r
    case _ => r
  }

  /** The part of apply that only fills in fields. */
  function Folded(c: Conn, l: Line, at: int): Conn {
    c.(lastSeenAt := at,
       lastElapsedMS := if l.elapsedMS > c.lastElapsedMS then l.elapsedMS else c.lastElapsedMS,
       haveOutbound := c.haveOutbound || l.event.OutboundTo?,
       rec := FoldedRec(c.rec, l))
  }

  /** The duplicate outbound line only counts as a sign of life. */
  function Seen(c: Conn, at: int): Conn {
    c.(lastSeenAt := at)
  }

  /** halfClosed: undirected halves fill the slots in order. */
  function HalfClosed(c: Conn, d: Direction, at: int): Conn {
    var t := c.(firstHalfAt := if c.firstHalfAt == 0 then at else c.firstHalfAt);
    match d
    case Upload => t.(closedUp := true)
    case Download => t.(closedDown := true)
    case NoDirection => if !t.closedUp then t.(closedUp := true) else t.(closedDown := true)
  }

  predicate Terminal(e: Event) {
    e.DialFailure? || e.AuthFailure? || e.HandshakeFailure? || e.ConnectionClosed?
  }

  predicate Closing(e: Event) {
    Terminal(e) || Half(e)
  }

  predicate Half(e: Event) {
    e.HalfFinished? || e.HalfCanceled?
  }

  /** The close evidence of a line. `classify` is the table that reads a close
      reason off an error text. */
  function Stated(l: Line, classify: string -> Reason): Candidate
    requires Terminal(l.event) || Half(l.event)
  {
    var empty := if l.event.HalfCanceled? then (if l.packet then UDPIdle else Canceled) else EOF;
    var read := if Blank(l.error) then empty else classify(l.error);
    match l.event
    case DialFailure => Candidate(DialFailed, l.error, RANK_TERMINAL)
    case AuthFailure => Candidate(AuthFailed, l.error, RANK_TERMINAL)
    case HandshakeFailure => Candidate(HandshakeFailed, l.error, RANK_TERMINAL)
    case ConnectionClosed => Candidate(read, l.error, RANK_TERMINAL)
    case _ =>
      Candidate(read, l.error, if !Blank(l.error) then RANK_ERROR else if empty == EOF then RANK_EOF else RANK_SOFT)
  }

  /** When a line was logged, or arrived if it does not say. */
  function Instant(l: Line, now: int): int {
    if l.at == 0 then now else l.at
  }

  /** Folded in, with one half closed and its evidence offered. */
  function Halved(c: Conn, l: Line, at: int, classify: string -> Reason): Conn
    requires Half(l.event)
  {
    HalfClosed(Offer(Folded(c, l, at), Stated(l, classify)), l.direction, at)
  }

  /** The connection after a line of its own, or none if the line ends it. */
  function After(c: Conn, l: Line, at: int, classify: string -> Reason): Option<Conn> {
    if l.event.OutboundTo? && c.haveOutbound then Some(Seen(c, at))
    else if Terminal(l.event) then None
    else if Half(l.event) then var h := Halved(c, l, at, classify); if h.closedUp && h.closedDown then None else Some(h)
    else if l.event.InboundFrom? && l.srcIP != ""
    then Some(Folded(c, l, at).(srcKey := Some(SrcKey(l.srcIP, l.srcPort))))
    else Some(Folded(c, l, at))
  }

  /** The record of a connection that a closing line ends. */
  function LastWords(c: Conn, l: Line, at: int, classify: string -> Reason, gen: nat): ConnRecord
    requires Closing(l.event)
  {
    if Terminal(l.event) then FinalRecord(Folded(c, l, at), Stated(l, classify), at, false, gen)
    else FinalRecord(Halved(c, l, at, classify), Halved(c, l, at, classify).close, at, false, gen)
  }

  /** What is known after a line: a closing line adds the reason it states. */
  function KnownAfter(c: Conn, e: Evidence, l: Line, classify: string -> Reason): Evidence {
    if Closing(l.event) then Heard(e, Stated(l, classify).reason) else e
  }

  /** A record that left, with what was known of its connection when it did. */
  datatype Emission = Emission(record: ConnRecord, evidence: Evidence)

  /** What finish emits: a connection seen only at its close, without source or
      destination, has no record. */
  function Report(r: ConnRecord, e: Evidence): seq<Emission> {
    if r.srcIP == "" && r.dstHost == "" then [] else [Emission(r, e)]
  }

  /** What a line of its own makes a connection emit. */
  function LineEmits(c: Conn, e: Evidence, l: Line, at: int, classify: string -> Reason, gen: nat): seq<Emission> {
    if Closing(l.event) && After(c, l, at, classify).None?
    then Report(LastWords(c, l, at, classify, gen), KnownAfter(c, e, l, classify)) else []
  }

  /** A new connection reused the log id: how this one ended is not known. */
  function CollideEmits(c: Conn, e: Evidence, at: int, gen: nat): seq<Emission> {
    Report(FinalRecord(c, Candidate(Unknown, "", RANK_TERMINAL), at, false, gen), e)
  }

  /** It left the table: with what it said, or unknown at the poll instant. */
  function VanishEmits(c: Conn, e: Evidence, at: int, gen: nat): seq<Emission> {
    if c.close.rank == 0 then Report(FinalRecord(c, Candidate(Unknown, "", RANK_TERMINAL), at, true, gen), e)
    else Report(FinalRecord(c, c.close, at, false, gen), e)
  }

  /** The core restarted under it. */
  function RestartEmits(c: Conn, e: Evidence, at: int, gen: nat): seq<Emission> {
    Report(FinalRecord(c, Candidate(CoreRestart, "", RANK_TERMINAL), at, true, gen), e)
  }

  /** What a tick makes it emit: the half close that was all it said, an orphan's
      record, or a snapshot of a connection that goes on. */
  function TickEmits(c: Conn, e: Evidence, now: int, polls: nat, gen: nat, o: Options): seq<Emission> {
    if GraceOver(c, now, o.halfCloseGrace, polls) then Report(FinalRecord(c, c.close, c.firstHalfAt, false, gen), e)
    else if now - c.lastSeenAt >= o.orphanTTL
    then Report(FinalRecord(c, Candidate(Unknown, c.close.error, RANK_TERMINAL), now, false, gen), e)
    else if now - c.lastEmitAt >= o.snapshotEvery
    then [Emission(OpenRecord(Watched(c, now, o), now, gen), StallNoted(c, e, now, o.stallFloor, o.stallQuiet))]
    else []
  }

  function Heard(e: Evidence, r: Reason): Evidence {
    e.(said := e.said + {r})
  }

  /** c' differs from c in nothing its honesty is about. */
  predicate SameFacts(c: Conn, c': Conn) {
    && c'.rec.logID == c.rec.logID && c'.rec.bytesKnown == c.rec.bytesKnown && c'.rec.stalledAt == c.rec.stalledAt
    && c'.rec.upload == c.rec.upload && c'.rec.download == c.rec.download
    && c'.close == c.close && c'.sampled == c.sampled && c'.srcKey == c.srcKey
    && c'.lastSnapAt == c.lastSnapAt && c'.lastByteChangeAt == c.lastByteChangeAt && c'.lastSnapSeq == c.lastSnapSeq
  }

  lemma SameFactsOk(c: Conn, c': Conn, e: Evidence, quiet: int)
    requires ConnOk(c, e, quiet) && SameFacts(c, c')
    ensures ConnOk(c', e, quiet)
  {
  }

  /** Hearing a reason, and offering it, keeps a connection honest. */
  lemma HeardOk(c: Conn, e: Evidence, cand: Candidate, quiet: int)
    requires ConnOk(c, e, quiet) && cand.rank > 0
    ensures ConnOk(c, Heard(e, cand.reason), quiet) && ConnOk(Offer(c, cand), Heard(e, cand.reason), quiet)
  {
  }

  lemma FoldedOk(c: Conn, l: Line, at: int, e: Evidence, quiet: int)
    requires ConnOk(c, e, quiet)
    ensures SameFacts(c, Folded(c, l, at)) && ConnOk(Folded(c, l, at), e, quiet)
  {
    SameFactsOk(c, Folded(c, l, at), e, quiet);
  }

  lemma HalfOk(c: Conn, e: Evidence, cand: Candidate, d: Direction, at: int, quiet: int)
    requires ConnOk(c, e, quiet) && cand.rank > 0
    ensures var h := HalfClosed(Offer(c, cand), d, at);
            && h.rec == c.rec && h.srcKey == c.srcKey && h.sampled == c.sampled && h.lastSnapSeq == c.lastSnapSeq
            && ConnOk(h, Heard(e, cand.reason), quiet)
            && (h.close.reason == NoReason || MayName(Heard(e, cand.reason), h.close.reason))
  {
    HeardOk(c, e, cand, quiet);
    SameFactsOk(Offer(c, cand), HalfClosed(Offer(c, cand), d, at), Heard(e, cand.reason), quiet);
  }

  /** Whole milliseconds, never negative. */
  function Millis(d: int): (ms: nat) {
    if d <= 0 then 0 else d / 1_000_000
  }

  /** Several offers in order. */
  function Offered(c: Conn, cands: seq<Candidate>): Conn {
    if cands == [] then c else Offer(Offered(c, cands[..|cands| - 1]), cands[|cands| - 1])
  }

  /** What is kept is the strongest evidence, and of equally strong the first. */
  lemma {:induction false} StrongestFirst(c: Conn, cands: seq<Candidate>) returns (i: nat)
    ensures var all := [c.close] + cands;
            && i < |all| && Offered(c, cands).close == all[i]
            && (forall j :: 0 <= j < |all| ==> all[j].rank <= all[i].rank)
            && (forall j :: 0 <= j < i ==> all[j].rank < all[i].rank)
  {
    i := 0;
    if cands != [] {
      var front := cands[..|cands| - 1];
      i := StrongestFirst(c, front);
      var all, before := [c.close] + cands, [c.close] + front;
      assert forall j :: 0 <= j < |before| ==> all[j] == before[j];
      if cands[|cands| - 1].rank > before[i].rank {
        i := |cands|;
      }
    }
  }

  /** The evidence of several half closes. */
  function AllStated(lines: seq<Line>, classify: string -> Reason): seq<Candidate>
    requires forall i :: 0 <= i < |lines| ==> Half(lines[i].event)
  {
    seq(|lines|, i requires 0 <= i < |lines| => Stated(lines[i], classify))
  }

  /** An error on one direction is not hidden by a clean other one, in whichever
      order they come: the first half close with an error decides. */
  lemma ErrorNotHidden(c: Conn, lines: seq<Line>, classify: string -> Reason, k: nat)
    requires c.close.rank == 0 && k < |lines| && !Blank(lines[k].error)
    requires forall i :: 0 <= i < |lines| ==> Half(lines[i].event)
    requires forall i :: 0 <= i < k ==> Blank(lines[i].error)
    ensures Offered(c, AllStated(lines, classify)).close == Stated(lines[k], classify)
  {
    var cands := AllStated(lines, classify);
    forall i | 0 <= i < |lines|
      ensures cands[i].rank <= RANK_ERROR && (cands[i].rank == RANK_ERROR <==> !Blank(lines[i].error))
    {
      ErrorOutranks(lines[i], classify);
    }
    StrongestKept(c, cands, k);
  }

  lemma ErrorOutranks(l: Line, classify: string -> Reason)
    requires Half(l.event)
    ensures Stated(l, classify).rank <= RANK_ERROR && (Stated(l, classify).rank == RANK_ERROR <==> !Blank(l.error))
  {
  }

  lemma StrongestKept(c: Conn, cands: seq<Candidate>, k: nat)
    requires k < |cands| && c.close.rank < cands[k].rank
    requires forall i :: 0 <= i < |cands| ==>
      cands[i].rank <= cands[k].rank && (i < k ==> cands[i].rank < cands[k].rank)
    ensures Offered(c, cands).close == cands[k]
  {
    var i := StrongestFirst(c, cands);
    var all := [c.close] + cands;
    assert all[k + 1] == cands[k];
    assert i > 0 ==> all[i] == cands[i - 1];
  }

  /** Several half closes in order. */
  function Halves(c: Conn, halves: seq<(Direction, int)>): Conn {
    if halves == [] then c
    else var last := halves[|halves| - 1]; HalfClosed(Halves(c, halves[..|halves| - 1]), last.0, last.1)
  }

  predicate Says(halves: seq<(Direction, int)>, d: Direction) {
    exists i :: 0 <= i < |halves| && halves[i].0 == d
  }

  lemma SaysOneMore(halves: seq<(Direction, int)>, d: Direction)
    requires halves != []
    ensures Says(halves, d) <==> Says(halves[..|halves| - 1], d) || halves[|halves| - 1].0 == d
  {
    var front := halves[..|halves| - 1];
    if Says(front, d) {
      var i :| 0 <= i < |front| && front[i].0 == d;
      assert halves[i].0 == d;
    }
    if i :| 0 <= i < |front| && halves[i].0 == d {
      assert front[i].0 == d;
    }
  }

  /** With named directions each side closes exactly when it said so. */
  lemma {:induction false} NamedHalves(c: Conn, halves: seq<(Direction, int)>)
    requires !c.closedUp && !c.closedDown && !Says(halves, NoDirection)
    ensures Halves(c, halves).closedUp == Says(halves, Upload) && Halves(c, halves).closedDown == Says(halves, Download)
  {
    if halves != [] {
      SaysOneMore(halves, NoDirection);
      SaysOneMore(halves, Upload);
      SaysOneMore(halves, Download);
      NamedHalves(c, halves[..|halves| - 1]);
    }
  }

  /** Without names the second half close completes, and the grace always runs
      from the first. */
  lemma {:induction false} UnnamedHalves(c: Conn, halves: seq<(Direction, int)>)
    requires !c.closedUp && !c.closedDown && c.firstHalfAt == 0 && forall i :: 0 <= i < |halves| ==> halves[i].1 != 0
    ensures !Says(halves, Upload) && !Says(halves, Download) ==>
      (Halves(c, halves).closedUp <==> |halves| >= 1) && (Halves(c, halves).closedDown <==> |halves| >= 2)
    ensures Halves(c, halves).firstHalfAt == if halves == [] then 0 else halves[0].1
  {
    if halves != [] {
      SaysOneMore(halves, Upload);
      SaysOneMore(halves, Download);
      UnnamedHalves(c, halves[..|halves| - 1]);
    }
  }

  /** What each kind of line fills in. Duration never walks back, a second outbound line only shows life, and an
      outbound line never overwrites a destination. */
  lemma FoldedKeeps(c: Conn, l: Line, again: Line, at: int, later: int, classify: string -> Reason)
    ensures Folded(c, l, at).lastElapsedMS >= c.lastElapsedMS && Folded(c, l, at).lastElapsedMS >= l.elapsedMS
    ensures Folded(c, l, at).lastElapsedMS in {c.lastElapsedMS, l.elapsedMS} && Folded(c, l, at).lastSeenAt == at
    ensures l.event.OutboundTo? && c.rec.dstHost != "" ==> Folded(c, l, at).rec.dstHost == c.rec.dstHost
    ensures l.event.OutboundTo? && c.rec.dstHost == "" ==> Folded(c, l, at).rec.dstHost == l.dstHost
    ensures l.event.InboundTo? ==> Folded(c, l, at).rec.dstHost == if l.dstHost == "" then c.rec.dstHost else l.dstHost
    ensures l.event.InboundFrom? ==> Folded(c, l, at).rec.srcIP == l.srcIP && Folded(c, l, at).rec.srcPort == l.srcPort
    ensures !l.event.InboundFrom? ==>
      Folded(c, l, at).rec.srcIP == c.rec.srcIP && Folded(c, l, at).rec.srcPort == c.rec.srcPort
    ensures l.event.OutboundTo? && again.event.OutboundTo? ==>
      After(Folded(c, l, at), again, later, classify) == Some(Folded(c, l, at).(lastSeenAt := later))
  {
  }

  /** Which lines end a connection: a failure to dial, to authenticate or to shake
      hands, a close, and the half close that leaves no half open. */
  lemma EndsExactly(c: Conn, l: Line, at: int, classify: string -> Reason)
    ensures After(c, l, at, classify).None? <==>
      || l.event in {DialFailure, AuthFailure, HandshakeFailure, ConnectionClosed}
      || (l.event in {HalfFinished, HalfCanceled} &&
          match l.direction
          case Upload => c.closedDown
          case Download => c.closedUp
          case NoDirection => c.closedUp || c.closedDown)
  {
  }

  /** What a closing line says. An error text is read by the table, except where
      the line itself names the failure; without one a finished half or a close is
      an end of file, and a canceled half is idleness of a packet connection or a
      cancellation. An error outranks an end of file, and that a cancellation. */
  lemma StatedMeans(l: Line, classify: string -> Reason)
    requires Closing(l.event)
    ensures var s := Stated(l, classify);
            && s.error == l.error
            && (l.event == DialFailure ==> s.reason == DialFailed && s.rank == RANK_TERMINAL)
            && (l.event == AuthFailure ==> s.reason == AuthFailed && s.rank == RANK_TERMINAL)
            && (l.event == HandshakeFailure ==> s.reason == HandshakeFailed && s.rank == RANK_TERMINAL)
            && (l.event == ConnectionClosed ==>
                  s.rank == RANK_TERMINAL && s.reason == if Blank(l.error) then EOF else classify(l.error))
            && (l.event in {HalfFinished, HalfCanceled} && !Blank(l.error) ==>
                  s.reason == classify(l.error) && s.rank == RANK_ERROR)
            && (l.event == HalfFinished && Blank(l.error) ==> s.reason == EOF && s.rank == RANK_EOF)
            && (l.event == HalfCanceled && Blank(l.error) ==>
                  s.rank == RANK_SOFT && s.reason == if l.packet then UDPIdle else Canceled)
    ensures 0 < RANK_SOFT < RANK_EOF < RANK_ERROR < RANK_TERMINAL
  {
  }

  /** A stall is marked exactly when the connection is older than the floor and its
      samples since the bytes last moved span the quiet time. */
  lemma StallExactly(c: Conn, e: Evidence, now: int, floor: int, quiet: int)
    requires ConnOk(c, e, quiet)
    ensures EvalStall(c, now, floor, quiet).rec.stalledAt != 0 <==>
      || c.rec.stalledAt != 0
      || (e.samples != [] && now - c.rec.startedAt > floor &&
          e.samples[|e.samples| - 1].at - e.samples[e.quietFrom].at >= quiet)
    ensures e.samples != [] && e.quietFrom > 0 ==>
      var before, last := e.samples[e.quietFrom - 1], e.samples[|e.samples| - 1];
      before.upload != last.upload || before.download != last.download
  {
  }
}
